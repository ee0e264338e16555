// Greedy matching of two ranked lists under forbidden pairs, by position only: what makes it stable
// and at least half as large as any other matching.
module Matching {
  type Blocks = (nat, nat) -> bool

  // Position pairs (buy, sell).
  type Match = (nat, nat)

  predicate Taken(m: seq<Match>, sell: nat) {
    exists k :: 0 <= k < |m| && m[k].1 == sell
  }

  // The first free, unblocked sell position at or after `from`, or `sells` if there is none.
  function FirstFree(m: seq<Match>, blocked: Blocks, buy: nat, from: nat, sells: nat): (j: nat)
    requires from <= sells
    ensures from <= j <= sells
    decreases sells - from
  {
    if from == sells then sells
    else if !Taken(m, from) && !blocked(buy, from) then from
    else FirstFree(m, blocked, buy, from + 1, sells)
  }

  lemma {:induction false} FirstFreeMeaning(m: seq<Match>, blocked: Blocks, buy: nat, from: nat, sells: nat)
    requires from <= sells
    ensures var j := FirstFree(m, blocked, buy, from, sells);
      && (j < sells ==> !Taken(m, j) && !blocked(buy, j))
      && forall i :: from <= i < j ==> Taken(m, i) || blocked(buy, i)
    decreases sells - from
  {
    if from < sells && (Taken(m, from) || blocked(buy, from)) {
      FirstFreeMeaning(m, blocked, buy, from + 1, sells);
    }
  }

  // Each buy in turn takes the first sell still free to it.
  function Greedy(blocked: Blocks, buys: nat, sells: nat): seq<Match> {
    if buys == 0 then []
    else
      var before := Greedy(blocked, buys - 1, sells);
      var j := FirstFree(before, blocked, buys - 1, 0, sells);
      if j < sells then before + [(buys - 1, j)] else before
  }

  ghost predicate Disjoint(m: seq<Match>) {
    forall i, j :: 0 <= i < j < |m| ==> m[i].0 < m[j].0 && m[i].1 != m[j].1
  }

  lemma {:induction false} GreedyIsMatching(blocked: Blocks, buys: nat, sells: nat)
    ensures var m := Greedy(blocked, buys, sells);
      Disjoint(m) && forall k :: 0 <= k < |m| ==> m[k].0 < buys && m[k].1 < sells && !blocked(m[k].0, m[k].1)
  {
    if buys > 0 {
      GreedyIsMatching(blocked, buys - 1, sells);
      FirstFreeMeaning(Greedy(blocked, buys - 1, sells), blocked, buys - 1, 0, sells);
    }
  }

  lemma {:induction false} GreedyGrows(blocked: Blocks, fewer: nat, buys: nat, sells: nat)
    requires fewer <= buys
    ensures Greedy(blocked, fewer, sells) <= Greedy(blocked, buys, sells)
  {
    if fewer < buys {
      GreedyGrows(blocked, fewer, buys - 1, sells);
    }
  }

  ghost predicate PairedBetter(m: seq<Match>, buy: nat, sell: nat) {
    || (buy, sell) in m
    || (exists j :: 0 <= j < sell && (buy, j) in m)
    || (exists i :: 0 <= i < buy && (i, sell) in m)
  }

  // What a buy or a sell got stays theirs.
  lemma PairStays(blocked: Blocks, fewer: nat, buys: nat, sells: nat, p: Match)
    requires fewer <= buys && p in Greedy(blocked, fewer, sells)
    ensures p in Greedy(blocked, buys, sells)
  {
    GreedyGrows(blocked, fewer, buys, sells);
  }

  // When a sell is free to a buy, the buy gets it or an earlier one.
  lemma FreeSellOrEarlier(blocked: Blocks, buy: nat, sells: nat, sell: nat) returns (j: nat)
    requires sell < sells && !blocked(buy, sell) && !Taken(Greedy(blocked, buy, sells), sell)
    ensures j <= sell && (buy, j) in Greedy(blocked, buy + 1, sells)
  {
    var before := Greedy(blocked, buy, sells);
    FirstFreeMeaning(before, blocked, buy, 0, sells);
    j := FirstFree(before, blocked, buy, 0, sells);
    assert Greedy(blocked, buy + 1, sells) == before + [(buy, j)];
  }

  // Stability: for every allowed pair not chosen, the buy got an earlier sell or the sell an earlier buy.
  lemma GreedyIsStable(blocked: Blocks, buys: nat, sells: nat, buy: nat, sell: nat)
    requires buy < buys && sell < sells && !blocked(buy, sell)
    ensures PairedBetter(Greedy(blocked, buys, sells), buy, sell)
  {
    var before := Greedy(blocked, buy, sells);
    if Taken(before, sell) {
      var k :| 0 <= k < |before| && before[k].1 == sell;
      GreedyIsMatching(blocked, buy, sells);
      assert before[k] == (before[k].0, sell);
      PairStays(blocked, buy, buys, sells, before[k]);
    } else {
      var j := FreeSellOrEarlier(blocked, buy, sells, sell);
      PairStays(blocked, buy + 1, buys, sells, (buy, j));
    }
  }

  // With nothing blocked the i-th buy meets the i-th sell until one side runs out.
  lemma {:induction false} GreedyUnblocked(blocked: Blocks, buys: nat, sells: nat)
    requires forall i: nat, j: nat :: i < buys && j < sells ==> !blocked(i, j)
    ensures var m := Greedy(blocked, buys, sells);
      |m| == (if buys <= sells then buys else sells) && forall k :: 0 <= k < |m| ==> m[k] == (k, k)
  {
    if buys > 0 {
      GreedyUnblocked(blocked, buys - 1, sells);
      var before := Greedy(blocked, buys - 1, sells);
      forall k: nat | k < |before|
        ensures Taken(before, k)
      {
        assert before[k].1 == k;
      }
      FirstFreeMeaning(before, blocked, buys - 1, 0, sells);
      if buys - 1 < sells {
        assert !Taken(before, buys - 1) && !blocked(buys - 1, buys - 1);
        assert FirstFree(before, blocked, buys - 1, 0, sells) == buys - 1;
      }
    }
  }
}
