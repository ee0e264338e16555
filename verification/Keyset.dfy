// Keyset paging over a collection that changes between requests.
module Keyset {
  import opened Bytes
  import opened Lists
  import opened StableSort

  // A row's sort fields in sequence, each turned so that smaller comes first, then the characters of its id.
  type Key = seq<int>

  function Lex(a: Key, b: Key): int {
    if a == [] || b == [] then |a| - |b|
    else if a[0] != b[0] then a[0] - b[0]
    else Lex(a[1..], b[1..])
  }

  function Codes(id: string): Key {
    seq(|id|, i requires 0 <= i < |id| => id[i] as int)
  }

  lemma CodesInjective(a: string, b: string)
    requires Codes(a) == Codes(b)
    ensures a == b
  {
    assert |a| == |Codes(a)| == |Codes(b)| == |b|;
    forall i | 0 <= i < |a|
      ensures a[i] == b[i]
    {
      assert Codes(a)[i] == Codes(b)[i];
    }
  }

  lemma {:induction false} LexZero(a: Key, b: Key)
    ensures Lex(a, b) == 0 <==> a == b
  {
    if a != [] && b != [] && a[0] == b[0] {
      LexZero(a[1..], b[1..]);
      assert a == [a[0]] + a[1..] && b == [b[0]] + b[1..];
    }
  }

  lemma {:induction false} LexFlip(a: Key, b: Key)
    ensures Lex(a, b) == -Lex(b, a)
  {
    if a != [] && b != [] && a[0] == b[0] {
      LexFlip(a[1..], b[1..]);
    }
  }

  lemma {:induction false} LexTransitive(a: Key, b: Key, c: Key)
    requires Lex(a, b) <= 0 && Lex(b, c) <= 0
    ensures Lex(a, c) <= 0 && (Lex(a, b) < 0 || Lex(b, c) < 0 ==> Lex(a, c) < 0)
  {
    if a != [] && b != [] && c != [] && a[0] == b[0] == c[0] {
      LexTransitive(a[1..], b[1..], c[1..]);
    }
  }

  function ByKey<R(!new)>(key: R -> Key): Comparator<R> {
    (x, y) => Lex(key(x), key(y))
  }

  lemma ByKeyIsPreorder<R(!new)>(key: R -> Key)
    ensures TotalPreorder(ByKey(key))
  {
    forall a, b
      ensures ByKey(key)(a, b) < 0 <==> ByKey(key)(b, a) > 0
    {
      LexFlip(key(a), key(b));
    }
    forall a, b, c | ByKey(key)(a, b) <= 0 && ByKey(key)(b, c) <= 0
      ensures ByKey(key)(a, c) <= 0
    {
      LexTransitive(key(a), key(b), key(c));
    }
  }

  ghost predicate DistinctKeys<R(!new)>(rows: seq<R>, key: R -> Key) {
    forall i, j :: 0 <= i < j < |rows| ==> key(rows[i]) != key(rows[j])
  }

  ghost predicate Ascending<R(!new)>(s: seq<R>, key: R -> Key) {
    forall i, j :: 0 <= i < j < |s| ==> Lex(key(s[i]), key(s[j])) < 0
  }

  predicate IsPast(k: Key, after: Option<Key>) {
    after.Some? ==> Lex(after.value, k) < 0
  }

  datatype Page<R> = Page(items: seq<R>, next: Option<Key>)

  function PastTest<R>(key: R -> Key, after: Option<Key>): R -> bool {
    r => IsPast(key(r), after)
  }

  function Past<R(!new)>(rows: seq<R>, key: R -> Key, after: Option<Key>): seq<R> {
    Filter(rows, PastTest(key, after))
  }

  // Up to `limit` rows past the cursor in key sequence, and the last key when there are more.
  function PageOf<R(!new)>(rows: seq<R>, key: R -> Key, after: Option<Key>, limit: nat): Page<R>
    requires limit >= 1
  {
    var sorted := Sort(ByKey(key), Past(rows, key, after));
    if |sorted| > limit then Page(sorted[..limit], Some(key(sorted[limit - 1]))) else Page(sorted, None)
  }

  lemma {:induction false} FilterKeepsDistinct<R(!new)>(rows: seq<R>, key: R -> Key, keep: R -> bool)
    requires DistinctKeys(rows, key)
    ensures DistinctKeys(Filter(rows, keep), key)
  {
    if rows != [] {
      var n := |rows| - 1;
      FilterKeepsDistinct(rows[..n], key, keep);
      FilterMembers(rows[..n], keep);
      var kept := Filter(rows[..n], keep);
      forall i | 0 <= i < |kept|
        ensures key(kept[i]) != key(rows[n])
      {
        assert kept[i] in rows[..n];
      }
    }
  }

  lemma DistinctSortAscends<R(!new)>(rows: seq<R>, key: R -> Key)
    requires DistinctKeys(rows, key)
    ensures Ascending(Sort(ByKey(key), rows), key)
  {
    var s := Sort(ByKey(key), rows);
    ByKeyIsPreorder(key);
    SortSorts(ByKey(key), rows);
    SortPermutes(ByKey(key), rows);
    forall i, j | 0 <= i < j < |s|
      ensures Lex(key(s[i]), key(s[j])) < 0
    {
      assert ByKey(key)(s[i], s[j]) <= 0;
      LexZero(key(s[i]), key(s[j]));
      if key(s[i]) == key(s[j]) {
        TwiceInRows(rows, s, i, j, key);
      }
    }
  }

  lemma {:induction false} DistinctRowsOnce<R(!new)>(rows: seq<R>, key: R -> Key, r: R)
    requires DistinctKeys(rows, key)
    ensures multiset(rows)[r] <= 1
  {
    if rows != [] {
      var n := |rows| - 1;
      DistinctRowsOnce(rows[..n], key, r);
      assert rows == rows[..n] + [rows[n]];
      if r == rows[n] {
        assert r !in rows[..n];
      }
    }
  }

  lemma TwoPlacesTwice<R(!new)>(s: seq<R>, i: nat, j: nat)
    requires i < j < |s| && s[i] == s[j]
    ensures multiset(s)[s[i]] >= 2
  {
    assert s == s[..j] + s[j..];
    assert s[i] in s[..j] && s[j] in s[j..];
  }

  // Two places of a permutation with one key would give two rows with that key.
  lemma TwiceInRows<R(!new)>(rows: seq<R>, s: seq<R>, i: nat, j: nat, key: R -> Key)
    requires multiset(s) == multiset(rows) && i < j < |s| && key(s[i]) == key(s[j])
    ensures !DistinctKeys(rows, key)
  {
    assert s[i] in multiset(s) && s[j] in multiset(s);
    assert s[i] in rows && s[j] in rows;
    if DistinctKeys(rows, key) {
      if s[i] == s[j] {
        TwoPlacesTwice(s, i, j);
        DistinctRowsOnce(rows, key, s[i]);
      }
    }
  }

  lemma PastAscends<R(!new)>(rows: seq<R>, key: R -> Key, after: Option<Key>)
    requires DistinctKeys(rows, key)
    ensures var sorted := Sort(ByKey(key), Past(rows, key, after));
      Ascending(sorted, key) && forall r :: r in sorted <==> r in rows && IsPast(key(r), after)
  {
    FilterKeepsDistinct(rows, key, PastTest(key, after));
    FilterMembers(rows, PastTest(key, after));
    DistinctSortAscends(Past(rows, key, after), key);
    SortPermutes(ByKey(key), Past(rows, key, after));
  }

  lemma SplitMembers<R(!new)>(s: seq<R>, n: nat, r: R)
    requires n <= |s| && r in s
    ensures r in s[..n] || exists i :: n <= i < |s| && s[i] == r
  {
    var i :| 0 <= i < |s| && s[i] == r;
    if i < n {
      assert s[..n][i] == r;
    }
  }

  lemma NextIsBeyond<R(!new)>(rows: seq<R>, key: R -> Key, after: Option<Key>, limit: nat)
    requires limit >= 1 && DistinctKeys(rows, key) && PageOf(rows, key, after, limit).next.Some?
    ensures exists r :: r in rows && IsPast(key(r), after) && r !in PageOf(rows, key, after, limit).items
  {
    var sorted := Sort(ByKey(key), Past(rows, key, after));
    PastAscends(rows, key, after);
    var r := sorted[limit];
    assert r in sorted;
    LexZero(key(r), key(r));
  }

  // A page is an ascending part of the rows past the cursor, and the rest is past its own cursor,
  // which it has exactly when there is a rest.
  lemma PageMeaning<R(!new)>(rows: seq<R>, key: R -> Key, after: Option<Key>, limit: nat)
    requires limit >= 1 && DistinctKeys(rows, key)
    ensures var p := PageOf(rows, key, after, limit);
      && Ascending(p.items, key) && |p.items| <= limit
      && (p.next.Some? ==> |p.items| == limit && p.next.value == key(p.items[limit - 1]))
      && (forall r :: r in p.items ==> r in rows && IsPast(key(r), after))
      && (forall r :: r in rows && IsPast(key(r), after) && r !in p.items ==> p.next.Some? && IsPast(key(r), p.next))
      && (p.next.Some? ==> exists r :: r in rows && IsPast(key(r), after) && r !in p.items)
  {
    var sorted := Sort(ByKey(key), Past(rows, key, after));
    var p := PageOf(rows, key, after, limit);
    if p.next.Some? {
      NextIsBeyond(rows, key, after, limit);
    }
    PastAscends(rows, key, after);
    assert forall r :: r in sorted[..|p.items|] ==> r in sorted;
    assert p.items == sorted[..|p.items|];
    forall r | r in rows && IsPast(key(r), after) && r !in p.items
      ensures p.next.Some? && IsPast(key(r), p.next)
    {
      SplitMembers(sorted, |p.items|, r);
    }
  }

  // ---- Following the cursor ----

  // The pages a client receives: the k-th request meets the k-th state of the collection.
  function Follow<R(!new)>(states: seq<seq<R>>, key: R -> Key, after: Option<Key>, limit: nat): seq<Page<R>>
    requires limit >= 1
  {
    if states == [] then []
    else
      var p := PageOf(states[0], key, after, limit);
      [p] + if p.next.None? then [] else Follow(states[1..], key, p.next, limit)
  }

  function Items<R>(pages: seq<Page<R>>): seq<R> {
    if pages == [] then [] else pages[0].items + Items(pages[1..])
  }

  predicate Ended<R>(pages: seq<Page<R>>) {
    pages != [] && pages[|pages| - 1].next.None?
  }

  ghost predicate AllDistinct<R(!new)>(states: seq<seq<R>>, key: R -> Key) {
    forall k :: 0 <= k < |states| ==> DistinctKeys(states[k], key)
  }

  lemma AscendingConcat<R(!new)>(s: seq<R>, t: seq<R>, key: R -> Key, mid: Key)
    requires Ascending(s, key) && Ascending(t, key)
    requires forall r :: r in s ==> Lex(key(r), mid) <= 0
    requires forall r :: r in t ==> Lex(mid, key(r)) < 0
    ensures Ascending(s + t, key)
  {
    forall i, j | 0 <= i < |s| && 0 <= j < |t|
      ensures Lex(key(s[i]), key(t[j])) < 0
    {
      assert s[i] in s && t[j] in t;
      LexTransitive(key(s[i]), mid, key(t[j]));
    }
  }

  // Keys only go up along a walk, so nothing comes twice with the same key; and what comes was there.
  lemma {:induction false} FollowAscends<R(!new)>(states: seq<seq<R>>, key: R -> Key, after: Option<Key>, limit: nat)
    requires limit >= 1 && AllDistinct(states, key)
    ensures var items := Items(Follow(states, key, after, limit));
      Ascending(items, key)
      && forall r :: r in items ==> IsPast(key(r), after) && exists k :: 0 <= k < |states| && r in states[k]
  {
    if states != [] {
      var p := PageOf(states[0], key, after, limit);
      PageMeaning(states[0], key, after, limit);
      var pages := Follow(states, key, after, limit);
      if p.next.Some? {
        var rest := Items(Follow(states[1..], key, p.next, limit));
        FollowAscends(states[1..], key, p.next, limit);
        assert pages[1..] == Follow(states[1..], key, p.next, limit);
        PageEndsAtNext(p, key, after, limit);
        AscendingConcat(p.items, rest, key, p.next.value);
        forall r | r in rest
          ensures IsPast(key(r), after) && exists k :: 0 <= k < |states| && r in states[k]
        {
          if after.Some? {
            LexTransitive(after.value, p.next.value, key(r));
          }
          var k :| 0 <= k < |states[1..]| && r in states[1..][k];
          assert r in states[k + 1];
        }
      } else {
        assert Items(pages) == p.items + Items(pages[1..]) == p.items;
      }
      assert forall r :: r in p.items ==> r in states[0];
    }
  }

  lemma PageEndsAtNext<R(!new)>(p: Page<R>, key: R -> Key, after: Option<Key>, limit: nat)
    requires limit >= 1 && |p.items| == limit && Ascending(p.items, key) && p.next == Some(key(p.items[limit - 1]))
    requires forall r :: r in p.items ==> IsPast(key(r), after)
    ensures (forall r :: r in p.items ==> Lex(key(r), p.next.value) <= 0) && IsPast(p.next.value, after)
  {
    var last := p.items[limit - 1];
    assert last in p.items;
    LexZero(key(last), key(last));
  }

  // A row that is there, with the same key, at every request of a walk that ended came with one of the pages.
  lemma {:induction false} FollowReturns<R(!new)>(states: seq<seq<R>>, key: R -> Key, after: Option<Key>, limit: nat,
                                                  r: R)
    requires limit >= 1 && AllDistinct(states, key) && Ended(Follow(states, key, after, limit))
    requires IsPast(key(r), after)
    requires forall k :: 0 <= k < |Follow(states, key, after, limit)| <= |states| ==> r in states[k]
    ensures r in Items(Follow(states, key, after, limit))
  {
    FollowLength(states, key, after, limit);
    var pages := Follow(states, key, after, limit);
    var p := PageOf(states[0], key, after, limit);
    PageMeaning(states[0], key, after, limit);
    if r !in p.items {
      assert pages[1..] == Follow(states[1..], key, p.next, limit);
      assert Ended(pages[1..]);
      FollowReturns(states[1..], key, p.next, limit, r);
    }
  }

  lemma {:induction false} FollowLength<R(!new)>(states: seq<seq<R>>, key: R -> Key, after: Option<Key>, limit: nat)
    requires limit >= 1
    ensures |Follow(states, key, after, limit)| <= |states|
  {
    if states != [] && PageOf(states[0], key, after, limit).next.Some? {
      FollowLength(states[1..], key, PageOf(states[0], key, after, limit).next, limit);
    }
  }

  lemma {:induction false} FollowFillsPages<R(!new)>(states: seq<seq<R>>, key: R -> Key, after: Option<Key>, limit: nat)
    requires limit >= 1 && AllDistinct(states, key) && !Ended(Follow(states, key, after, limit))
    ensures |Items(Follow(states, key, after, limit))| == |states| * limit
  {
    if states != [] {
      var p := PageOf(states[0], key, after, limit);
      PageMeaning(states[0], key, after, limit);
      var pages := Follow(states, key, after, limit);
      assert p.next.Some?;
      assert pages[1..] == Follow(states[1..], key, p.next, limit);
      FollowFillsPages(states[1..], key, p.next, limit);
      assert |states| * limit == (|states| - 1) * limit + limit;
    }
  }

  lemma {:induction false} AscendingFits<R(!new)>(s: seq<R>, key: R -> Key, universe: set<Key>)
    requires Ascending(s, key) && forall r :: r in s ==> key(r) in universe
    ensures |s| <= |universe|
  {
    if s != [] {
      var n := |s| - 1;
      var k := key(s[n]);
      forall r | r in s[..n]
        ensures key(r) in universe - {k}
      {
        LexZero(key(r), k);
      }
      AscendingFits(s[..n], key, universe - {k});
    }
  }

  // With finitely many keys in play, a walk ends before it has asked more often than they fill pages.
  lemma FollowEnds<R(!new)>(states: seq<seq<R>>, key: R -> Key, limit: nat, universe: set<Key>)
    requires limit >= 1 && AllDistinct(states, key)
    requires forall k :: 0 <= k < |states| ==> forall r :: r in states[k] ==> key(r) in universe
    requires |states| * limit > |universe|
    ensures Ended(Follow(states, key, None, limit))
  {
    if !Ended(Follow(states, key, None, limit)) {
      FollowFillsPages(states, key, None, limit);
      FollowAscends(states, key, None, limit);
      AscendingFits(Items(Follow(states, key, None, limit)), key, universe);
    }
  }

  lemma LastIsGreatest<R(!new)>(s: seq<R>, key: R -> Key)
    requires s != [] && Ascending(s, key)
    ensures var last := s[|s| - 1];
      last !in s[..|s| - 1] && forall r :: r in s[..|s| - 1] ==> Lex(key(r), key(last)) < 0
    ensures s == s[..|s| - 1] + [s[|s| - 1]]
  {
    LexZero(key(s[|s| - 1]), key(s[|s| - 1]));
  }

  function Members<R(!new)>(s: seq<R>): set<R> {
    set r | r in s
  }

  lemma NoMembers<R(!new)>(s: seq<R>)
    ensures s == [] <==> Members(s) == {}
  {
    if s != [] {
      assert s[0] in Members(s);
    }
  }

  lemma SameTop<R(!new)>(s: seq<R>, t: seq<R>, key: R -> Key)
    requires s != [] && t != [] && Ascending(s, key) && Ascending(t, key) && Members(s) == Members(t)
    ensures s[|s| - 1] == t[|t| - 1]
  {
    var x, y := s[|s| - 1], t[|t| - 1];
    LastIsGreatest(s, key);
    LastIsGreatest(t, key);
    assert x in Members(s) && y in Members(t);
    LexFlip(key(x), key(y));
  }

  lemma MembersWithoutLast<R(!new)>(s: seq<R>, key: R -> Key)
    requires s != [] && Ascending(s, key)
    ensures Members(s[..|s| - 1]) == Members(s) - {s[|s| - 1]}
  {
    LastIsGreatest(s, key);
  }

  // A strictly ascending sequence is determined by its members.
  lemma {:induction false} AscendingUnique<R(!new)>(s: seq<R>, t: seq<R>, key: R -> Key)
    requires Ascending(s, key) && Ascending(t, key) && Members(s) == Members(t)
    ensures s == t
  {
    NoMembers(s);
    NoMembers(t);
    if s != [] {
      SameTop(s, t, key);
      MembersWithoutLast(s, key);
      MembersWithoutLast(t, key);
      AscendingUnique(s[..|s| - 1], t[..|t| - 1], key);
      assert s == s[..|s| - 1] + [s[|s| - 1]] && t == t[..|t| - 1] + [t[|t| - 1]];
    }
  }

  lemma ListsAll<R(!new)>(items: seq<R>, rows: seq<R>, key: R -> Key)
    requires DistinctKeys(rows, key) && Ascending(items, key)
    requires (forall r :: r in items ==> r in rows) && (forall r :: r in rows ==> r in items)
    ensures items == Sort(ByKey(key), rows)
  {
    DistinctSortAscends(rows, key);
    SortPermutes(ByKey(key), rows);
    AscendingUnique(items, Sort(ByKey(key), rows), key);
  }

  // On a collection that does not change, the pages put together are the whole sorted listing.
  lemma FollowListsAll<R(!new)>(rows: seq<R>, key: R -> Key, limit: nat, requests: nat)
    requires limit >= 1 && DistinctKeys(rows, key) && requests * limit > |rows|
    ensures var pages := Follow(seq(requests, _ => rows), key, None, limit);
      Ended(pages) && Items(pages) == Sort(ByKey(key), rows)
  {
    var states := seq(requests, _ => rows);
    var universe := set r | r in rows :: key(r);
    KeysFit(rows, key);
    FollowEnds(states, key, limit, universe);
    FollowAscends(states, key, None, limit);
    FollowLength(states, key, None, limit);
    var items := Items(Follow(states, key, None, limit));
    forall r | r in rows
      ensures r in items
    {
      FollowReturns(states, key, None, limit, r);
    }
    ListsAll(items, rows, key);
  }

  lemma {:induction false} KeysFit<R(!new)>(rows: seq<R>, key: R -> Key)
    ensures |set r | r in rows :: key(r)| <= |rows|
  {
    if rows != [] {
      var n := |rows| - 1;
      KeysFit(rows[..n], key);
      var before := set r | r in rows[..n] :: key(r);
      assert (set r | r in rows :: key(r)) == before + {key(rows[n])};
    }
  }
}
