// The event-sourced projection of orders and trades: one handler per bot event, as a specification
// on values and as the class whose handlers update the collections document by document.
module Projection {
  import opened Bytes
  import opened Lists
  import opened Settlement

  datatype Status = Discovered | Live | Reserved | Pending | SettlementSubmitted
                  | Filled | Canceled | Cancelled | Invalid | Orphaned

  const AllStatuses := {Discovered, Live, Reserved, Pending, SettlementSubmitted, Filled, Canceled, Cancelled,
                        Invalid, Orphaned}

  function AllowedTransitions(s: Status): set<Status> {
    match s
    case Discovered => AllStatuses - {Discovered}
    case Live => AllStatuses - {Discovered, Live}
    case Reserved => {Live, Pending, Canceled, Cancelled, Filled, Invalid, Orphaned}
    case Pending => {Live, Canceled, Cancelled, Filled, Invalid, Orphaned}
    case SettlementSubmitted => {Pending, Filled, Canceled, Cancelled, Orphaned, Invalid}
    case Filled => {Orphaned}
    case Canceled => {Orphaned}
    case Cancelled => {Orphaned}
    case Invalid => {}
    case Orphaned => {Live, Canceled, Cancelled, Filled, Invalid}
  }

  predicate CanTransition(current: Status, next: Status) {
    next in AllowedTransitions(current)
  }

  type OrderId = string
  type TxHash = string
  type EventId = string

  datatype Order = Order(
    doc: OrderDoc, status: Status, blockNumber: nat, createdBlockHash: string, confirmedAt: nat,
    spentAt: Option<nat>, spentBlockHash: Option<string>, settlementTx: Option<TxHash>, pendingTx: Option<TxHash>,
    reservedUntil: Option<nat>, lastEvent: EventId)

  datatype Trade = Trade(buy: OrderId, sell: OrderId, block: nat, blockHash: string, confirmed: bool,
                         lastEvent: EventId)

  datatype Event =
    | OrderConfirmedEvent(id: EventId, order: OrderId, block: nat, blockHash: string, doc: OrderDoc)
    | OrderCancelledEvent(id: EventId, order: OrderId, block: nat, blockHash: string, tx: TxHash)
    | SettlementSubmittedEvent(id: EventId, first: OrderId, second: OrderId, tx: TxHash)
    | TradeConfirmedEvent(id: EventId, buy: OrderId, sell: OrderId, tx: TxHash, block: nat, blockHash: string)
    | ChainReorgEvent(id: EventId, reverted: nat, revertedHash: string, ancestor: Option<int>)

  // The two collections.
  datatype Store = Store(orders: map<OrderId, Order>, trades: map<TxHash, Trade>)

  const EmptyStore := Store(map[], map[])

  datatype Outcome = Applied(store: Store) | Ignored(reason: string) | Thrown(error: string)

  // The collections after an outcome: only an applied event changes them.
  function After(s: Store, o: Outcome): Store {
    if o.Applied? then o.store else s
  }

  function OrderConfirmedOutcome(s: Store, e: Event): Outcome
    requires e.OrderConfirmedEvent?
  {
    if e.order in s.orders && s.orders[e.order].createdBlockHash == e.blockHash
      && s.orders[e.order].status != Orphaned then
      Ignored("order-already-indexed")
    else
      Applied(s.(orders := s.orders[e.order :=
        Order(e.doc, Live, e.block, e.blockHash, e.block, None, None, None, None, None, e.id)]))
  }

  function OrderCancelledOutcome(s: Store, e: Event): Outcome
    requires e.OrderCancelledEvent?
  {
    if e.order !in s.orders then Ignored("order-not-found")
    else
      var o := s.orders[e.order];
      if !CanTransition(o.status, Canceled) then Thrown("Invalid order transition")
      else Applied(s.(orders := s.orders[e.order := o.(
        status := Canceled, lastEvent := e.id, confirmedAt := e.block, spentAt := Some(e.block),
        spentBlockHash := Some(e.blockHash), settlementTx := Some(e.tx))]))
  }

  function MarkPending(o: Order, e: Event): Order
    requires e.SettlementSubmittedEvent?
  {
    o.(status := Pending, pendingTx := Some(e.tx), settlementTx := Some(e.tx), lastEvent := e.id)
  }

  function SettlementSubmittedOutcome(s: Store, e: Event): Outcome
    requires e.SettlementSubmittedEvent?
  {
    if |{e.first, e.second} * s.orders.Keys| != 2 then Ignored("order-not-found")
    else
      assert {e.first, e.second} <= s.orders.Keys by { PairPresent(e.first, e.second, s.orders.Keys); }
      if !CanTransition(s.orders[e.first].status, Pending) || !CanTransition(s.orders[e.second].status, Pending) then
        Ignored("invalid-transition-to-pending")
      else Applied(s.(orders := s.orders[e.first := MarkPending(s.orders[e.first], e)]
                                        [e.second := MarkPending(s.orders[e.second], e)]))
  }

  function MarkFilled(o: Order, e: Event): Order
    requires e.TradeConfirmedEvent?
  {
    o.(status := Filled, confirmedAt := e.block, spentAt := Some(e.block), spentBlockHash := Some(e.blockHash),
       pendingTx := Some(e.tx), settlementTx := Some(e.tx), lastEvent := e.id)
  }

  // An upsert: the legs are written only on insert, the block facts always.
  function UpsertTrade(trades: map<TxHash, Trade>, e: Event): map<TxHash, Trade>
    requires e.TradeConfirmedEvent?
  {
    var legs := if e.tx in trades then (trades[e.tx].buy, trades[e.tx].sell) else (e.buy, e.sell);
    trades[e.tx := Trade(legs.0, legs.1, e.block, e.blockHash, true, e.id)]
  }

  function TradeConfirmedOutcome(s: Store, e: Event): Outcome
    requires e.TradeConfirmedEvent?
  {
    if |{e.buy, e.sell} * s.orders.Keys| != 2 then Ignored("order-not-found")
    else
      assert {e.buy, e.sell} <= s.orders.Keys by { PairPresent(e.buy, e.sell, s.orders.Keys); }
      if !CanTransition(s.orders[e.buy].status, Filled) || !CanTransition(s.orders[e.sell].status, Filled) then
        Ignored("invalid-transition-to-filled")
      else Applied(Store(s.orders[e.buy := MarkFilled(s.orders[e.buy], e)][e.sell := MarkFilled(s.orders[e.sell], e)],
                         UpsertTrade(s.trades, e)))
  }

  // The first block that is rolled back.
  function RollbackFrom(e: Event): int
    requires e.ChainReorgEvent?
  {
    if e.ancestor.Some? then e.ancestor.value + 1 else e.reverted
  }

  predicate CreatedReverted(o: Order, from: int) {
    o.blockNumber >= from && o.status != Orphaned
  }

  predicate SpentReverted(o: Order, from: int) {
    !CreatedReverted(o, from) && o.spentAt.Some? && o.spentAt.value >= from && o.status in {Filled, Canceled, Cancelled}
  }

  function Orphan(o: Order, e: Event): Order {
    o.(status := Orphaned, reservedUntil := None, pendingTx := None, lastEvent := e.id)
  }

  function Reopen(o: Order, e: Event): Order {
    o.(status := Live, reservedUntil := None, pendingTx := None, spentAt := None, spentBlockHash := None,
       settlementTx := None, lastEvent := e.id)
  }

  function RollbackOrder(o: Order, e: Event): Order
    requires e.ChainReorgEvent?
  {
    if CreatedReverted(o, RollbackFrom(e)) then Orphan(o, e)
    else if SpentReverted(o, RollbackFrom(e)) then Reopen(o, e)
    else o
  }

  predicate TradeReverted(t: Trade, from: int) {
    t.block >= from && t.confirmed
  }

  function RollbackTrade(t: Trade, e: Event): Trade
    requires e.ChainReorgEvent?
  {
    if TradeReverted(t, RollbackFrom(e)) then t.(confirmed := false, lastEvent := e.id) else t
  }

  function OrphanIn(m: map<OrderId, Order>, ids: set<OrderId>, e: Event): map<OrderId, Order> {
    map k | k in m :: if k in ids then Orphan(m[k], e) else m[k]
  }

  function ReopenIn(m: map<OrderId, Order>, ids: set<OrderId>, e: Event): map<OrderId, Order> {
    map k | k in m :: if k in ids then Reopen(m[k], e) else m[k]
  }

  function RevertIn(m: map<TxHash, Trade>, ids: set<TxHash>, e: Event): map<TxHash, Trade> {
    map k | k in m :: if k in ids then m[k].(confirmed := false, lastEvent := e.id) else m[k]
  }

  // Writing the two query results one after the other rolls every order back once.
  lemma RollbackInPasses(m: map<OrderId, Order>, e: Event)
    requires e.ChainReorgEvent?
    ensures var created := set k | k in m && CreatedReverted(m[k], RollbackFrom(e));
      var spent := set k | k in m && SpentReverted(m[k], RollbackFrom(e));
      ReopenIn(OrphanIn(m, created, e), spent, e) == map k | k in m :: RollbackOrder(m[k], e)
  {
  }

  lemma RevertInOnePass(m: map<TxHash, Trade>, e: Event)
    requires e.ChainReorgEvent?
    ensures RevertIn(m, (set k | k in m && TradeReverted(m[k], RollbackFrom(e))), e) ==
      map k | k in m :: RollbackTrade(m[k], e)
  {
  }

  function ChainReorgOutcome(s: Store, e: Event): Outcome
    requires e.ChainReorgEvent?
  {
    Applied(Store(map k | k in s.orders :: RollbackOrder(s.orders[k], e),
                  map k | k in s.trades :: RollbackTrade(s.trades[k], e)))
  }

  function ApplyEvent(s: Store, e: Event): Outcome {
    match e
    case OrderConfirmedEvent(_, _, _, _, _) => OrderConfirmedOutcome(s, e)
    case OrderCancelledEvent(_, _, _, _, _) => OrderCancelledOutcome(s, e)
    case SettlementSubmittedEvent(_, _, _, _) => SettlementSubmittedOutcome(s, e)
    case TradeConfirmedEvent(_, _, _, _, _, _) => TradeConfirmedOutcome(s, e)
    case ChainReorgEvent(_, _, _, _) => ChainReorgOutcome(s, e)
  }

  // ---- The service's handlers ----

  datatype Reply = APPLIED | IGNORED(reason: string) | THROWN(error: string)

  function ReplyOf(o: Outcome): Reply {
    match o
    case Applied(_) => APPLIED
    case Ignored(reason) => IGNORED(reason)
    case Thrown(error) => THROWN(error)
  }

  class Collections {
    var orders: map<OrderId, Order>
    var trades: map<TxHash, Trade>

    constructor ()
      ensures Contents() == EmptyStore
    {
      orders, trades := map[], map[];
    }

    function Contents(): Store
      reads this
    {
      Store(orders, trades)
    }

    // Documents of `ids` that exist; duplicates count once.
    method Find(ids: seq<OrderId>) returns (found: set<OrderId>)
      ensures found == (set i | i in ids && i in orders)
    {
      found := set i | i in ids && i in orders;
    }

    method Save(id: OrderId, o: Order)
      modifies this`orders
      ensures orders == old(orders)[id := o]
    {
      orders := orders[id := o];
    }

    method ApplyOrderConfirmed(e: Event) returns (r: Reply)
      requires e.OrderConfirmedEvent?
      modifies this
      ensures r == ReplyOf(OrderConfirmedOutcome(old(Contents()), e))
      ensures Contents() == After(old(Contents()), OrderConfirmedOutcome(old(Contents()), e))
    {
      if e.order in orders {
        var existing := orders[e.order];
        if existing.createdBlockHash == e.blockHash && existing.status != Orphaned {
          return IGNORED("order-already-indexed");
        }
      }
      Save(e.order, Order(e.doc, Live, e.block, e.blockHash, e.block, None, None, None, None, None, e.id));
      r := APPLIED;
    }

    method ApplyOrderCancelled(e: Event) returns (r: Reply)
      requires e.OrderCancelledEvent?
      modifies this
      ensures r == ReplyOf(OrderCancelledOutcome(old(Contents()), e))
      ensures Contents() == After(old(Contents()), OrderCancelledOutcome(old(Contents()), e))
    {
      if e.order !in orders {
        return IGNORED("order-not-found");
      }
      var order := orders[e.order];
      if !CanTransition(order.status, Canceled) {
        return THROWN("Invalid order transition");
      }
      // The status is saved first, the spend facts second.
      order := order.(status := Canceled, lastEvent := e.id);
      Save(e.order, order);
      order := order.(confirmedAt := e.block, spentAt := Some(e.block), spentBlockHash := Some(e.blockHash));
      order := order.(settlementTx := Some(e.tx));
      Save(e.order, order);
      r := APPLIED;
    }

    method ApplySettlementSubmitted(e: Event) returns (r: Reply)
      requires e.SettlementSubmittedEvent?
      modifies this
      ensures r == ReplyOf(SettlementSubmittedOutcome(old(Contents()), e))
      ensures Contents() == After(old(Contents()), SettlementSubmittedOutcome(old(Contents()), e))
    {
      var ids := [e.first, e.second];
      var found := Find(ids);
      assert found == {e.first, e.second} * orders.Keys;
      PairPresent(e.first, e.second, orders.Keys);
      if |found| != |ids| {
        return IGNORED("order-not-found");
      }
      assert {e.first, e.second} <= orders.Keys;
      if exists i :: 0 <= i < |ids| && !CanTransition(orders[ids[i]].status, Pending) {
        return IGNORED("invalid-transition-to-pending");
      }
      assert CanTransition(orders[ids[0]].status, Pending) && CanTransition(orders[ids[1]].status, Pending);
      ghost var before := orders;
      var i := 0;
      while i < |ids|
        invariant 0 <= i <= 2
        invariant trades == old(trades)
        invariant orders == if i == 0 then before
                            else if i == 1 then before[e.first := MarkPending(before[e.first], e)]
                            else before[e.first := MarkPending(before[e.first], e)]
                                       [e.second := MarkPending(before[e.second], e)]
      {
        var order := orders[ids[i]];
        order := order.(status := Pending, pendingTx := Some(e.tx));
        order := order.(settlementTx := Some(e.tx), lastEvent := e.id);
        Save(ids[i], order);
        i := i + 1;
      }
      r := APPLIED;
    }

    method ApplyTradeConfirmed(e: Event) returns (r: Reply)
      requires e.TradeConfirmedEvent?
      modifies this
      ensures r == ReplyOf(TradeConfirmedOutcome(old(Contents()), e))
      ensures Contents() == After(old(Contents()), TradeConfirmedOutcome(old(Contents()), e))
    {
      var ids := [e.buy, e.sell];
      var found := Find(ids);
      assert found == {e.buy, e.sell} * orders.Keys;
      PairPresent(e.buy, e.sell, orders.Keys);
      if |found| != 2 {
        return IGNORED("order-not-found");
      }
      assert {e.buy, e.sell} <= orders.Keys;
      if exists i :: 0 <= i < |ids| && !CanTransition(orders[ids[i]].status, Filled) {
        return IGNORED("invalid-transition-to-filled");
      }
      assert CanTransition(orders[ids[0]].status, Filled) && CanTransition(orders[ids[1]].status, Filled);
      ghost var before := orders;
      var i := 0;
      while i < |ids|
        invariant 0 <= i <= 2
        invariant trades == old(trades)
        invariant orders == if i == 0 then before
                            else if i == 1 then before[e.buy := MarkFilled(before[e.buy], e)]
                            else before[e.buy := MarkFilled(before[e.buy], e)][e.sell := MarkFilled(before[e.sell], e)]
      {
        var order := orders[ids[i]];
        order := order.(status := Filled, confirmedAt := e.block, spentAt := Some(e.block));
        order := order.(spentBlockHash := Some(e.blockHash), pendingTx := Some(e.tx));
        order := order.(settlementTx := Some(e.tx), lastEvent := e.id);
        Save(ids[i], order);
        i := i + 1;
      }
      trades := UpsertTrade(trades, e);
      r := APPLIED;
    }

    method OrphanEach(ids: set<OrderId>, e: Event)
      requires ids <= orders.Keys
      modifies this`orders
      ensures orders == OrphanIn(old(orders), ids, e)
    {
      var left := ids;
      while left != {}
        invariant left <= ids && orders.Keys == old(orders).Keys
        invariant forall k <- old(orders) ::
          orders[k] == if k in ids - left then Orphan(old(orders)[k], e) else old(orders)[k]
      {
        var k :| k in left;
        var order := orders[k];
        order := order.(status := Orphaned, reservedUntil := None);
        order := order.(pendingTx := None, lastEvent := e.id);
        Save(k, order);
        left := left - {k};
      }
    }

    method ReopenEach(ids: set<OrderId>, e: Event)
      requires ids <= orders.Keys
      modifies this`orders
      ensures orders == ReopenIn(old(orders), ids, e)
    {
      var left := ids;
      while left != {}
        invariant left <= ids && orders.Keys == old(orders).Keys
        invariant forall k <- old(orders) ::
          orders[k] == if k in ids - left then Reopen(old(orders)[k], e) else old(orders)[k]
      {
        var k :| k in left;
        var order := orders[k];
        order := order.(status := Live, reservedUntil := None, pendingTx := None);
        order := order.(spentAt := None, spentBlockHash := None, settlementTx := None, lastEvent := e.id);
        Save(k, order);
        left := left - {k};
      }
    }

    method RevertEachTrade(ids: set<TxHash>, e: Event)
      requires ids <= trades.Keys
      modifies this`trades
      ensures trades == RevertIn(old(trades), ids, e)
    {
      var left := ids;
      while left != {}
        invariant left <= ids && trades.Keys == old(trades).Keys
        invariant forall k <- old(trades) ::
          trades[k] ==
            if k in ids - left then old(trades)[k].(confirmed := false, lastEvent := e.id) else old(trades)[k]
      {
        var k :| k in left;
        trades := trades[k := trades[k].(confirmed := false, lastEvent := e.id)];
        left := left - {k};
      }
    }

    // Both order queries run before anything is written; the writes do not touch trades.
    method ApplyChainReorg(e: Event) returns (r: Reply)
      requires e.ChainReorgEvent?
      modifies this
      ensures r == APPLIED
      ensures Contents() == After(old(Contents()), ChainReorgOutcome(old(Contents()), e))
    {
      var from := if e.ancestor.Some? then e.ancestor.value + 1 else e.reverted;
      var createdReverted := set k | k in orders && CreatedReverted(orders[k], from);
      var spentReverted := set k | k in orders && SpentReverted(orders[k], from);
      var revertedTrades := set k | k in trades && TradeReverted(trades[k], from);
      RollbackInPasses(orders, e);
      RevertInOnePass(trades, e);
      OrphanEach(createdReverted, e);
      ReopenEach(spentReverted, e);
      RevertEachTrade(revertedTrades, e);
      r := APPLIED;
    }

    method Apply(e: Event) returns (r: Reply)
      modifies this
      ensures r == ReplyOf(ApplyEvent(old(Contents()), e))
      ensures Contents() == After(old(Contents()), ApplyEvent(old(Contents()), e))
    {
      match e
      case OrderConfirmedEvent(_, _, _, _, _) => r := ApplyOrderConfirmed(e);
      case OrderCancelledEvent(_, _, _, _, _) => r := ApplyOrderCancelled(e);
      case SettlementSubmittedEvent(_, _, _, _) => r := ApplySettlementSubmitted(e);
      case TradeConfirmedEvent(_, _, _, _, _, _) => r := ApplyTradeConfirmed(e);
      case ChainReorgEvent(_, _, _, _) => r := ApplyChainReorg(e);
    }
  }
}
