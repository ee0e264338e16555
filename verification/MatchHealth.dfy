// Failed settlement attempts: quarantined orders and exponentially backed-off pairs.
module MatchHealth {
  type OrderId = string
  type Key = string

  const BASE_PAIR_BACKOFF_MS := 5_000
  const MAX_PAIR_BACKOFF_MS := 600_000

  const SEPARATOR := '|'

  function PairKey(buy: OrderId, sell: OrderId): Key {
    buy + [SEPARATOR] + sell
  }

  // The text up to the first separator, and the text after it.
  function Head(key: string): string {
    if key == [] || key[0] == SEPARATOR then [] else [key[0]] + Head(key[1..])
  }

  function Rest(key: string): string {
    if key == [] then [] else if key[0] == SEPARATOR then key[1..] else Rest(key[1..])
  }

  // The two ids a key is split into.
  function KeyIds(key: Key): (OrderId, OrderId) {
    (Head(key), Head(Rest(key)))
  }

  // Order ids are an outpoint's hash and index, so they never hold the separator.
  predicate PlainId(id: OrderId) {
    SEPARATOR !in id
  }

  const OUTPOINT_CHARS := "0123456789abcdefx:"

  // An outpoint id is a hash in hexadecimal, a colon and an index, so it is plain.
  lemma OutpointIdsArePlain(id: OrderId)
    requires forall c :: c in id ==> c in OUTPOINT_CHARS
    ensures PlainId(id)
  {
    assert SEPARATOR !in OUTPOINT_CHARS;
  }

  lemma {:induction false} SplitAtSeparator(a: string, b: string)
    requires PlainId(a)
    ensures Head(a + [SEPARATOR] + b) == a && Rest(a + [SEPARATOR] + b) == b
  {
    if a != [] {
      assert (a + [SEPARATOR] + b)[1..] == a[1..] + [SEPARATOR] + b;
      SplitAtSeparator(a[1..], b);
    } else {
      assert ([SEPARATOR] + b)[1..] == b;
      assert a + [SEPARATOR] + b == [SEPARATOR] + b;
    }
  }

  lemma {:induction false} HeadOfPlain(a: string)
    requires PlainId(a)
    ensures Head(a) == a
  {
    if a != [] {
      HeadOfPlain(a[1..]);
    }
  }

  lemma KeyNamesPair(buy: OrderId, sell: OrderId)
    requires PlainId(buy) && PlainId(sell)
    ensures KeyIds(PairKey(buy, sell)) == (buy, sell)
  {
    SplitAtSeparator(buy, sell);
    HeadOfPlain(sell);
  }

  // Doubles with every consecutive failure, up to the cap.
  function Delay(failures: nat): nat
    requires failures > 0
  {
    var ms := BASE_PAIR_BACKOFF_MS * Pow2(failures - 1);
    if ms <= MAX_PAIR_BACKOFF_MS then ms else MAX_PAIR_BACKOFF_MS
  }

  function Pow2(n: nat): nat {
    if n == 0 then 1 else 2 * Pow2(n - 1)
  }

  datatype PairState = PairState(failures: nat, until: int)

  datatype Health = Health(quarantined: map<OrderId, int>, pairs: map<Key, PairState>)

  predicate Quarantined(h: Health, id: OrderId, now: int) {
    id in h.quarantined && h.quarantined[id] > now
  }

  // No quarantine answer differs, at `now` or later.
  ghost predicate SameQuarantines(h: Health, g: Health, now: int) {
    forall id, at :: at >= now ==> (Quarantined(h, id, at) <==> Quarantined(g, id, at))
  }

  predicate Blocked(h: Health, buy: OrderId, sell: OrderId, now: int) {
    PairKey(buy, sell) in h.pairs && h.pairs[PairKey(buy, sell)].until > now
  }

  function FailureCount(h: Health, key: Key): nat {
    if key in h.pairs then h.pairs[key].failures else 0
  }

  function AfterFailure(h: Health, buy: OrderId, sell: OrderId, now: int): Health {
    var key := PairKey(buy, sell);
    var failures := FailureCount(h, key) + 1;
    h.(pairs := h.pairs[key := PairState(failures, now + Delay(failures))])
  }

  function AfterPrune(h: Health, live: set<OrderId>, now: int): Health {
    Health(map id | id in h.quarantined && h.quarantined[id] > now && id in live :: h.quarantined[id],
           map k | k in h.pairs && (h.pairs[k].until > now || (KeyIds(k).0 in live && KeyIds(k).1 in live)) ::
             h.pairs[k])
  }

  class MatchHealth {
    var quarantinedOrders: map<OrderId, int>
    var pairs: map<Key, PairState>

    constructor ()
      ensures Contents() == Health(map[], map[])
    {
      quarantinedOrders, pairs := map[], map[];
    }

    function Contents(): Health
      reads this
    {
      Health(quarantinedOrders, pairs)
    }

    method QuarantineOrder(id: OrderId, ms: nat, now: int)
      modifies this`quarantinedOrders
      ensures Contents() == old(Contents()).(quarantined := old(quarantinedOrders)[id := now + ms])
    {
      quarantinedOrders := quarantinedOrders[id := now + ms];
    }

    // Answers, and forgets a quarantine that has run out; that changes no answer now or later.
    method IsOrderQuarantined(id: OrderId, now: int) returns (answer: bool)
      modifies this`quarantinedOrders
      ensures answer == Quarantined(old(Contents()), id, now)
      ensures quarantinedOrders ==
        if id in old(quarantinedOrders) && !answer then old(quarantinedOrders) - {id} else old(quarantinedOrders)
      ensures SameQuarantines(old(Contents()), Contents(), now)
    {
      if id !in quarantinedOrders {
        return false;
      }
      if quarantinedOrders[id] <= now {
        quarantinedOrders := quarantinedOrders - {id};
        return false;
      }
      answer := true;
    }

    method RecordPairFailure(buy: OrderId, sell: OrderId, now: int) returns (delay: nat)
      modifies this`pairs
      ensures Contents() == AfterFailure(old(Contents()), buy, sell, now)
      ensures delay == Delay(FailureCount(old(Contents()), PairKey(buy, sell)) + 1)
    {
      var key := PairKey(buy, sell);
      var failures := (if key in pairs then pairs[key].failures else 0) + 1;
      delay := Delay(failures);
      pairs := pairs[key := PairState(failures, now + delay)];
    }

    method IsPairBlocked(buy: OrderId, sell: OrderId, now: int) returns (answer: bool)
      ensures answer == Blocked(Contents(), buy, sell, now)
    {
      var key := PairKey(buy, sell);
      answer := key in pairs && pairs[key].until > now;
    }

    method RecordSuccess(buy: OrderId, sell: OrderId)
      modifies this`pairs
      ensures pairs == old(pairs) - {PairKey(buy, sell)}
    {
      pairs := pairs - {PairKey(buy, sell)};
    }

    method Prune(live: set<OrderId>, now: int)
      modifies this
      ensures Contents() == AfterPrune(old(Contents()), live, now)
    {
      var ids := quarantinedOrders.Keys;
      while ids != {}
        invariant ids <= old(quarantinedOrders).Keys && pairs == old(pairs)
        invariant quarantinedOrders == map id | id in old(quarantinedOrders)
                    && (id in ids || (old(quarantinedOrders)[id] > now && id in live)) :: old(quarantinedOrders)[id]
      {
        var id :| id in ids;
        if quarantinedOrders[id] <= now || id !in live {
          quarantinedOrders := quarantinedOrders - {id};
        }
        ids := ids - {id};
      }
      var keys := pairs.Keys;
      while keys != {}
        invariant keys <= old(pairs).Keys && quarantinedOrders == AfterPrune(old(Contents()), live, now).quarantined
        invariant pairs == map k | k in old(pairs)
                    && (k in keys || old(pairs)[k].until > now || (KeyIds(k).0 in live && KeyIds(k).1 in live)) ::
                      old(pairs)[k]
      {
        var key :| key in keys;
        var (buyId, sellId) := KeyIds(key);
        if pairs[key].until <= now && (buyId !in live || sellId !in live) {
          pairs := pairs - {key};
        }
        keys := keys - {key};
      }
    }
  }

  // ---- Pruning is invisible ----

  // Pruning changes no answer about a pair now or later, no answer about a live order, and nothing at
  // all about a pair whose orders are both live.
  lemma PruneIsInvisible(h: Health, live: set<OrderId>, now: int, later: int, buy: OrderId, sell: OrderId)
    requires PlainId(buy) && PlainId(sell) && later >= now
    ensures var p := AfterPrune(h, live, now);
      && (Blocked(p, buy, sell, later) <==> Blocked(h, buy, sell, later))
      && (buy in live ==> (Quarantined(p, buy, later) <==> Quarantined(h, buy, later)))
      && (buy in live && sell in live ==>
            FailureCount(p, PairKey(buy, sell)) == FailureCount(h, PairKey(buy, sell))
            && (PairKey(buy, sell) in p.pairs <==> PairKey(buy, sell) in h.pairs))
  {
    KeyNamesPair(buy, sell);
  }

  // Pruning drops all else: quarantines that are over or whose order is gone, and backoffs that are over and
  // whose pair is not live on both sides.
  lemma PruneDropsTheRest(h: Health, live: set<OrderId>, now: int, id: OrderId, buy: OrderId, sell: OrderId)
    requires PlainId(buy) && PlainId(sell)
    ensures var p, key := AfterPrune(h, live, now), PairKey(buy, sell);
      && (id in p.quarantined <==> id in h.quarantined && h.quarantined[id] > now && id in live)
      && (key in p.pairs <==> key in h.pairs && (h.pairs[key].until > now || (buy in live && sell in live)))
  {
    KeyNamesPair(buy, sell);
  }

  // ---- Backoff over whole runs ----

  datatype Op =
    | Fail(buy: OrderId, sell: OrderId, at: int)
    | Succeed(buy: OrderId, sell: OrderId)
    | Prune(live: set<OrderId>, at: int)
    | Quarantine(id: OrderId, ms: nat, at: int)
    | AskQuarantined(id: OrderId, at: int)

  function Next(h: Health, op: Op): Health {
    match op
    case Fail(buy, sell, at) => AfterFailure(h, buy, sell, at)
    case Succeed(buy, sell) => h.(pairs := h.pairs - {PairKey(buy, sell)})
    case Prune(live, at) => AfterPrune(h, live, at)
    case Quarantine(id, ms, at) => h.(quarantined := h.quarantined[id := at + ms])
    case AskQuarantined(id, at) =>
      if id in h.quarantined && h.quarantined[id] <= at then h.(quarantined := h.quarantined - {id}) else h
  }

  function Run(ops: seq<Op>): Health {
    if ops == [] then Health(map[], map[]) else Next(Run(ops[..|ops| - 1]), ops[|ops| - 1])
  }

  // The pair's failures since its last success.
  function Streak(ops: seq<Op>, buy: OrderId, sell: OrderId): nat {
    if ops == [] then 0
    else
      var last := ops[|ops| - 1];
      if last.Succeed? && last.buy == buy && last.sell == sell then 0
      else Streak(ops[..|ops| - 1], buy, sell) + if last.Fail? && last.buy == buy && last.sell == sell then 1 else 0
  }

  // When the latest failure of a non-empty streak happened.
  function LastFailure(ops: seq<Op>, buy: OrderId, sell: OrderId): int
    requires Streak(ops, buy, sell) > 0
  {
    var last := ops[|ops| - 1];
    if last.Fail? && last.buy == buy && last.sell == sell then last.at else LastFailure(ops[..|ops| - 1], buy, sell)
  }

  // Both orders stay live, and all ids are outpoints.
  ghost predicate KeepsLive(ops: seq<Op>, buy: OrderId, sell: OrderId) {
    forall i :: 0 <= i < |ops| ==>
      (ops[i].Prune? ==> buy in ops[i].live && sell in ops[i].live)
      && (ops[i].Fail? || ops[i].Succeed? ==> PlainId(ops[i].buy) && PlainId(ops[i].sell))
  }

  lemma KeysDiffer(buy: OrderId, sell: OrderId, buy': OrderId, sell': OrderId)
    requires PlainId(buy) && PlainId(sell) && PlainId(buy') && PlainId(sell')
    ensures PairKey(buy, sell) == PairKey(buy', sell') <==> (buy, sell) == (buy', sell')
  {
    KeyNamesPair(buy, sell);
    KeyNamesPair(buy', sell');
  }

  // While both orders stay live the k-th consecutive failure of a pair blocks it for exactly Delay(k)
  // from that failure on, whatever else happens in between.
  lemma {:induction false} BackoffIsExact(ops: seq<Op>, buy: OrderId, sell: OrderId, now: int)
    requires PlainId(buy) && PlainId(sell) && KeepsLive(ops, buy, sell)
    ensures var k := Streak(ops, buy, sell);
      && FailureCount(Run(ops), PairKey(buy, sell)) == k
      && (PairKey(buy, sell) in Run(ops).pairs <==> k > 0)
      && (k > 0 ==> Run(ops).pairs[PairKey(buy, sell)].until == LastFailure(ops, buy, sell) + Delay(k))
      && (Blocked(Run(ops), buy, sell, now) <==> k > 0 && now < LastFailure(ops, buy, sell) + Delay(k))
  {
    if ops != [] {
      var n := |ops| - 1;
      var last := ops[n];
      BackoffIsExact(ops[..n], buy, sell, now);
      match last
      case Fail(b, s, _) => KeysDiffer(buy, sell, b, s);
      case Succeed(b, s) => KeysDiffer(buy, sell, b, s);
      case Prune(live, at) => KeyNamesPair(buy, sell);
      case _ =>
    }
  }

  // The delay sequence: doubles from five seconds and settles at ten minutes with the eighth failure.
  lemma DelaySequence(k: nat)
    ensures Delay(1) == 5_000
    ensures k >= 8 ==> Delay(k) == 600_000
    ensures 0 < k < 7 ==> Delay(k + 1) == 2 * Delay(k)
    ensures k > 0 ==> Delay(k) <= Delay(k + 1)
  {
    assert Pow2(6) == 64 && Pow2(7) == 2 * Pow2(6);
    if k >= 8 {
      Pow2Grows(7, k - 1);
    } else if 0 < k < 7 {
      Pow2Grows(k, 6);
    }
  }

  lemma {:induction false} Pow2Grows(m: nat, n: nat)
    requires m <= n
    ensures Pow2(m) <= Pow2(n)
  {
    if m < n {
      Pow2Grows(m, n - 1);
    }
  }

  // Attempts that wait for the block to lift are at least the backoff apart.
  lemma AttemptsAreSpaced(ops: seq<Op>, buy: OrderId, sell: OrderId, attempt: int)
    requires PlainId(buy) && PlainId(sell) && KeepsLive(ops, buy, sell)
    requires Streak(ops, buy, sell) > 0 && !Blocked(Run(ops), buy, sell, attempt)
    ensures attempt - LastFailure(ops, buy, sell) >= Delay(Streak(ops, buy, sell))
  {
    BackoffIsExact(ops, buy, sell, attempt);
  }

  // The operations neither quarantine the order again nor prune it as gone, and come no later than `now`.
  ghost predicate LeavesQuarantine(ops: seq<Op>, id: OrderId, now: int) {
    forall i :: 0 <= i < |ops| ==>
      match ops[i]
      case Quarantine(other, _, _) => other != id
      case Prune(live, at) => id in live && at <= now
      case AskQuarantined(_, at) => at <= now
      case _ => true
  }

  function RunFrom(h: Health, ops: seq<Op>): Health {
    if ops == [] then h else Next(RunFrom(h, ops[..|ops| - 1]), ops[|ops| - 1])
  }

  // A quarantine lasts exactly as long as it was given: whatever happens in between, an order quarantined for
  // ms at some time is out of the matching at a later one if and only if less than ms have passed.
  lemma {:induction false} QuarantineLasts(h: Health, id: OrderId, ms: nat, at: int, ops: seq<Op>, now: int)
    requires LeavesQuarantine(ops, id, now)
    ensures Quarantined(RunFrom(Next(h, Quarantine(id, ms, at)), ops), id, now) <==> now < at + ms
    ensures var r := RunFrom(Next(h, Quarantine(id, ms, at)), ops);
      (now < at + ms ==> id in r.quarantined) && (id in r.quarantined ==> r.quarantined[id] == at + ms)
  {
    if ops != [] {
      QuarantineLasts(h, id, ms, at, ops[..|ops| - 1], now);
    }
  }
}
