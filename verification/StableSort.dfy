// A stable sort by comparator, as the runtime library and the database provide it.
module StableSort {
  // Negative when the first argument goes first.
  type Comparator<!T> = (T, T) -> int

  ghost predicate TotalPreorder<T(!new)>(cmp: Comparator<T>) {
    && (forall a, b {:trigger cmp(a, b), cmp(b, a)} :: cmp(a, b) < 0 <==> cmp(b, a) > 0)
    && (forall a, b, c {:trigger cmp(a, b), cmp(b, c), cmp(a, c)} :: cmp(a, b) <= 0 && cmp(b, c) <= 0 ==>
          cmp(a, c) <= 0)
  }

  // Places x after everything it does not go before.
  function Insert<T>(cmp: Comparator<T>, x: T, s: seq<T>): seq<T> {
    if s == [] then [x]
    else
      var n := |s| - 1;
      if cmp(s[n], x) <= 0 then s + [x] else Insert(cmp, x, s[..n]) + [s[n]]
  }

  function Sort<T>(cmp: Comparator<T>, s: seq<T>): seq<T> {
    if s == [] then [] else Insert(cmp, s[|s| - 1], Sort(cmp, s[..|s| - 1]))
  }

  ghost predicate Sorted<T>(cmp: Comparator<T>, s: seq<T>) {
    forall i, j :: 0 <= i < j < |s| ==> cmp(s[i], s[j]) <= 0
  }

  // The elements of s that compare equal to x, in sequence.
  function Equals<T>(cmp: Comparator<T>, x: T, s: seq<T>): seq<T> {
    if s == [] then []
    else Equals(cmp, x, s[..|s| - 1]) + if cmp(x, s[|s| - 1]) == 0 then [s[|s| - 1]] else []
  }

  lemma {:induction false} InsertPermutes<T>(cmp: Comparator<T>, x: T, s: seq<T>)
    ensures multiset(Insert(cmp, x, s)) == multiset(s) + multiset{x}
  {
    if s != [] {
      var n := |s| - 1;
      InsertPermutes(cmp, x, s[..n]);
      assert s == s[..n] + [s[n]];
    }
  }

  lemma {:induction false} InsertSorts<T(!new)>(cmp: Comparator<T>, x: T, s: seq<T>)
    requires TotalPreorder(cmp) && Sorted(cmp, s)
    ensures Sorted(cmp, Insert(cmp, x, s))
  {
    if s != [] {
      var n := |s| - 1;
      if cmp(s[n], x) <= 0 {
        assert forall i :: 0 <= i < n ==> cmp(s[i], s[n]) <= 0;
      } else {
        InsertSorts(cmp, x, s[..n]);
        InsertPermutes(cmp, x, s[..n]);
        var r := Insert(cmp, x, s[..n]);
        forall i | 0 <= i < |r|
          ensures cmp(r[i], s[n]) <= 0
        {
          assert r[i] in multiset(r);
          assert r[i] == x || r[i] in s[..n];
        }
      }
    }
  }

  lemma {:induction false} SortPermutes<T(!new)>(cmp: Comparator<T>, s: seq<T>)
    ensures multiset(Sort(cmp, s)) == multiset(s) && |Sort(cmp, s)| == |s|
    ensures forall x :: x in Sort(cmp, s) <==> x in s
  {
    if s != [] {
      var n := |s| - 1;
      SortPermutes(cmp, s[..n]);
      InsertPermutes(cmp, s[n], Sort(cmp, s[..n]));
      assert s == s[..n] + [s[n]];
    }
    assert |multiset(Sort(cmp, s))| == |multiset(s)|;
    forall x
      ensures x in Sort(cmp, s) <==> x in s
    {
      assert x in multiset(Sort(cmp, s)) <==> x in multiset(s);
    }
  }

  lemma {:induction false} SortSorts<T(!new)>(cmp: Comparator<T>, s: seq<T>)
    requires TotalPreorder(cmp)
    ensures Sorted(cmp, Sort(cmp, s))
  {
    if s != [] {
      SortSorts(cmp, s[..|s| - 1]);
      InsertSorts(cmp, s[|s| - 1], Sort(cmp, s[..|s| - 1]));
    }
  }

  lemma EqualsSnoc<T>(cmp: Comparator<T>, y: T, s: seq<T>, x: T)
    ensures Equals(cmp, y, s + [x]) == Equals(cmp, y, s) + if cmp(y, x) == 0 then [x] else []
  {
    assert (s + [x])[..|s|] == s;
  }

  lemma {:induction false} InsertAppendsEqual<T(!new)>(cmp: Comparator<T>, x: T, y: T, s: seq<T>)
    requires TotalPreorder(cmp) && Sorted(cmp, s)
    ensures Equals(cmp, y, Insert(cmp, x, s)) == Equals(cmp, y, s) + if cmp(y, x) == 0 then [x] else []
  {
    EqualsSnoc(cmp, y, s, x);
    if s == [] {
      assert s + [x] == [x];
    } else if cmp(s[|s| - 1], x) > 0 {
      var n := |s| - 1;
      var last := s[n];
      InsertAppendsEqual(cmp, x, y, s[..n]);
      EqualsSnoc(cmp, y, Insert(cmp, x, s[..n]), last);
      assert !(cmp(y, last) == 0 && cmp(y, x) == 0) by {
        assert cmp(last, y) <= 0 && cmp(y, x) <= 0 ==> cmp(last, x) <= 0;
      }
    }
  }

  // Elements that compare equal keep the sequence they came in.
  lemma {:induction false} SortIsStable<T(!new)>(cmp: Comparator<T>, s: seq<T>, y: T)
    requires TotalPreorder(cmp)
    ensures Equals(cmp, y, Sort(cmp, s)) == Equals(cmp, y, s)
  {
    if s != [] {
      SortIsStable(cmp, s[..|s| - 1], y);
      SortSorts(cmp, s[..|s| - 1]);
      InsertAppendsEqual(cmp, s[|s| - 1], y, Sort(cmp, s[..|s| - 1]));
    }
  }
}
