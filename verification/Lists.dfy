// Filtering sequences and comparing set sizes.
module Lists {
  function Filter<T>(s: seq<T>, keep: T -> bool): seq<T> {
    if s == [] then []
    else Filter(s[..|s| - 1], keep) + if keep(s[|s| - 1]) then [s[|s| - 1]] else []
  }

  lemma {:induction false} FilterMembers<T(!new)>(s: seq<T>, keep: T -> bool)
    ensures forall x :: x in Filter(s, keep) <==> x in s && keep(x)
  {
    if s != [] {
      FilterMembers(s[..|s| - 1], keep);
      assert s == s[..|s| - 1] + [s[|s| - 1]];
    }
  }

  lemma FilterSnoc<T>(s: seq<T>, x: T, keep: T -> bool)
    ensures Filter(s + [x], keep) == Filter(s, keep) + if keep(x) then [x] else []
  {
    assert (s + [x])[..|s|] == s;
  }

  lemma {:induction false} SubsetSize<T>(a: set<T>, b: set<T>)
    requires a <= b
    ensures |a| <= |b|
  {
    if a != {} {
      var x :| x in a;
      SubsetSize(a - {x}, b - {x});
    }
  }

  // Looking two ids up finds two documents exactly when the ids differ and both exist.
  lemma PairPresent<T>(a: T, b: T, present: set<T>)
    ensures |{a, b} * present| == 2 <==> a != b && {a, b} <= present
  {
    var both := {a, b} * present;
    if a != b && {a, b} <= present {
      assert both == {a, b};
    } else if a == b || b !in present {
      assert both <= {a};
      if |both| == 2 {
        SubsetSize(both, {a});
      }
    } else {
      assert both <= {b};
      if |both| == 2 {
        SubsetSize(both, {b});
      }
    }
  }
}
