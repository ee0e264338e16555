// Whole runs of the projection: trades and orders always agree, and a rollback leaves exactly what
// replaying the events that were never rolled back would have built.
module Rollback {
  import opened Bytes
  import opened Lists
  import opened Projection

  // What happens to the collections: a delivered event, or the bot reserving a live order.
  datatype Step = Deliver(event: Event) | Reserve(order: OrderId, until: nat)

  function ReserveOrder(s: Store, order: OrderId, until: nat): Store {
    if order in s.orders && s.orders[order].status == Live then
      s.(orders := s.orders[order := s.orders[order].(status := Reserved, reservedUntil := Some(until))])
    else s
  }

  function Next(s: Store, step: Step): Store {
    match step
    case Deliver(e) => After(s, ApplyEvent(s, e))
    case Reserve(order, until) => ReserveOrder(s, order, until)
  }

  // A settlement transaction consumes one buy and one sell, so its hash determines them.
  type Legs = TxHash -> (OrderId, OrderId)

  predicate Present(s: Store, order: OrderId) {
    order in s.orders && s.orders[order].status != Orphaned
  }

  // What deliveries respect: creations only for absent or orphaned orders, spends never for orphaned
  // ones and never below the creating block, and one pair of orders per settlement hash.
  predicate Delivered(legs: Legs, s: Store, e: Event) {
    match e
    case OrderConfirmedEvent(_, order, _, _, _) => !Present(s, order)
    case OrderCancelledEvent(_, order, block, _, _) =>
      order in s.orders ==> Present(s, order) && s.orders[order].blockNumber <= block
    case TradeConfirmedEvent(_, buy, sell, tx, block, _) =>
      legs(tx) == (buy, sell)
      && forall o :: o in {buy, sell} && o in s.orders ==> Present(s, o) && s.orders[o].blockNumber <= block
    case SettlementSubmittedEvent(_, _, _, _) => true
    case ChainReorgEvent(_, _, _, _) => true
  }

  predicate Allowed(legs: Legs, s: Store, step: Step) {
    step.Deliver? ==> Delivered(legs, s, step.event)
  }

  function Run(s: Store, steps: seq<Step>): Store {
    if steps == [] then s else Next(Run(s, steps[..|steps| - 1]), steps[|steps| - 1])
  }

  ghost predicate ValidRun(legs: Legs, s: Store, steps: seq<Step>) {
    steps == [] ||
    (ValidRun(legs, s, steps[..|steps| - 1]) && Allowed(legs, Run(s, steps[..|steps| - 1]), steps[|steps| - 1]))
  }

  // ---- Trades and orders agree ----

  ghost predicate FilledBy(s: Store, order: OrderId, tx: TxHash, block: nat) {
    order in s.orders && s.orders[order].status == Filled
    && s.orders[order].settlementTx == Some(tx) && s.orders[order].spentAt == Some(block)
  }

  ghost predicate OrderAgrees(s: Store, order: OrderId)
    requires order in s.orders
  {
    var o := s.orders[order];
    && o.status in {Live, Reserved, Pending, Filled, Canceled, Orphaned}
    && (o.status in {Filled, Canceled} ==> o.settlementTx.Some? && o.spentAt.Some? && o.blockNumber <= o.spentAt.value)
    && (o.status == Filled ==>
          o.settlementTx.value in s.trades && s.trades[o.settlementTx.value].confirmed
          && s.trades[o.settlementTx.value].block == o.spentAt.value
          && (order == s.trades[o.settlementTx.value].buy || order == s.trades[o.settlementTx.value].sell))
  }

  ghost predicate TradeAgrees(legs: Legs, s: Store, tx: TxHash)
    requires tx in s.trades
  {
    var t := s.trades[tx];
    && legs(tx) == (t.buy, t.sell) && t.buy != t.sell
    && (t.confirmed ==> FilledBy(s, t.buy, tx, t.block) && FilledBy(s, t.sell, tx, t.block))
  }

  ghost predicate Agreement(legs: Legs, s: Store) {
    (forall o <- s.orders :: OrderAgrees(s, o)) && (forall tx <- s.trades :: TradeAgrees(legs, s, tx))
  }

  lemma CancelKeepsAgreement(legs: Legs, s: Store, e: Event)
    requires Agreement(legs, s) && e.OrderCancelledEvent? && Delivered(legs, s, e)
    ensures Agreement(legs, After(s, ApplyEvent(s, e)))
  {
    var t := After(s, ApplyEvent(s, e));
    forall tx <- t.trades ensures TradeAgrees(legs, t, tx) {
      assert TradeAgrees(legs, s, tx);
    }
    forall o <- t.orders ensures OrderAgrees(t, o) {
      assert OrderAgrees(s, o);
    }
  }

  lemma ConfirmKeepsAgreement(legs: Legs, s: Store, e: Event)
    requires Agreement(legs, s) && e.OrderConfirmedEvent? && Delivered(legs, s, e)
    ensures Agreement(legs, After(s, ApplyEvent(s, e)))
  {
    var t := After(s, ApplyEvent(s, e));
    forall tx <- t.trades ensures TradeAgrees(legs, t, tx) {
      assert TradeAgrees(legs, s, tx);
    }
    forall o <- t.orders ensures OrderAgrees(t, o) {
      assert o in s.orders ==> OrderAgrees(s, o);
    }
  }

  lemma SubmitKeepsKeys(s: Store, e: Event)
    requires e.SettlementSubmittedEvent?
    ensures var t := After(s, ApplyEvent(s, e)); t.trades == s.trades && t.orders.Keys == s.orders.Keys
  {
    PairPresent(e.first, e.second, s.orders.Keys);
  }

  lemma SubmitKeepsTrade(legs: Legs, s: Store, e: Event, tx: TxHash)
    requires Agreement(legs, s) && e.SettlementSubmittedEvent? && tx in s.trades
    ensures var t := After(s, ApplyEvent(s, e)); t.trades == s.trades && TradeAgrees(legs, t, tx)
  {
    PairPresent(e.first, e.second, s.orders.Keys);
    assert TradeAgrees(legs, s, tx);
    if ApplyEvent(s, e).Applied? {
      assert s.orders[e.first].status != Filled && s.orders[e.second].status != Filled;
    }
  }

  lemma SubmitKeepsOrder(legs: Legs, s: Store, e: Event, order: OrderId)
    requires Agreement(legs, s) && e.SettlementSubmittedEvent? && order in s.orders
    ensures var t := After(s, ApplyEvent(s, e)); t.orders.Keys == s.orders.Keys && OrderAgrees(t, order)
  {
    PairPresent(e.first, e.second, s.orders.Keys);
    assert OrderAgrees(s, order);
  }

  lemma SubmitKeepsAgreement(legs: Legs, s: Store, e: Event)
    requires Agreement(legs, s) && e.SettlementSubmittedEvent?
    ensures Agreement(legs, After(s, ApplyEvent(s, e)))
  {
    var t := After(s, ApplyEvent(s, e));
    forall tx | tx in s.trades
      ensures t.trades == s.trades && TradeAgrees(legs, t, tx)
    {
      SubmitKeepsTrade(legs, s, e, tx);
    }
    forall o | o in s.orders
      ensures t.orders.Keys == s.orders.Keys && OrderAgrees(t, o)
    {
      SubmitKeepsOrder(legs, s, e, o);
    }
    SubmitKeepsKeys(s, e);
  }

  // A trade that is applied is new or was reverted.
  lemma NotYetConfirmed(legs: Legs, s: Store, e: Event)
    requires Agreement(legs, s) && e.TradeConfirmedEvent? && Delivered(legs, s, e) && ApplyEvent(s, e).Applied?
    ensures e.tx in s.trades ==>
      !s.trades[e.tx].confirmed && (s.trades[e.tx].buy, s.trades[e.tx].sell) == (e.buy, e.sell)
  {
    PairPresent(e.buy, e.sell, s.orders.Keys);
    if e.tx in s.trades {
      assert TradeAgrees(legs, s, e.tx);
    }
  }

  lemma TradeKeepsTrade(legs: Legs, s: Store, e: Event, tx: TxHash)
    requires Agreement(legs, s) && e.TradeConfirmedEvent? && Delivered(legs, s, e)
    requires tx in After(s, ApplyEvent(s, e)).trades
    ensures TradeAgrees(legs, After(s, ApplyEvent(s, e)), tx)
  {
    PairPresent(e.buy, e.sell, s.orders.Keys);
    assert e.tx in s.trades ==> TradeAgrees(legs, s, e.tx);
    if tx in s.trades {
      assert TradeAgrees(legs, s, tx);
    }
  }

  lemma TradeKeepsOrder(legs: Legs, s: Store, e: Event, order: OrderId)
    requires Agreement(legs, s) && e.TradeConfirmedEvent? && Delivered(legs, s, e)
    requires order in After(s, ApplyEvent(s, e)).orders
    ensures OrderAgrees(After(s, ApplyEvent(s, e)), order)
  {
    PairPresent(e.buy, e.sell, s.orders.Keys);
    assert order in s.orders && OrderAgrees(s, order);
    if ApplyEvent(s, e).Applied? {
      NotYetConfirmed(legs, s, e);
    }
  }

  lemma TradeKeepsAgreement(legs: Legs, s: Store, e: Event)
    requires Agreement(legs, s) && e.TradeConfirmedEvent? && Delivered(legs, s, e)
    ensures Agreement(legs, After(s, ApplyEvent(s, e)))
  {
    var t := After(s, ApplyEvent(s, e));
    forall tx <- t.trades ensures TradeAgrees(legs, t, tx) {
      TradeKeepsTrade(legs, s, e, tx);
    }
    forall o <- t.orders ensures OrderAgrees(t, o) {
      TradeKeepsOrder(legs, s, e, o);
    }
  }

  lemma ReorgKeepsAgreement(legs: Legs, s: Store, e: Event)
    requires Agreement(legs, s) && e.ChainReorgEvent?
    ensures Agreement(legs, After(s, ApplyEvent(s, e)))
  {
    var t := After(s, ApplyEvent(s, e));
    forall tx <- t.trades ensures TradeAgrees(legs, t, tx) {
      assert TradeAgrees(legs, s, tx);
      if t.trades[tx].confirmed {
        assert OrderAgrees(s, s.trades[tx].buy) && OrderAgrees(s, s.trades[tx].sell);
      }
    }
    forall o <- t.orders ensures OrderAgrees(t, o) {
      assert OrderAgrees(s, o);
    }
  }

  lemma StepKeepsAgreement(legs: Legs, s: Store, step: Step)
    requires Agreement(legs, s) && Allowed(legs, s, step)
    ensures Agreement(legs, Next(s, step))
  {
    match step
    case Reserve(order, _) =>
      var t := Next(s, step);
      forall tx <- t.trades ensures TradeAgrees(legs, t, tx) {
        assert TradeAgrees(legs, s, tx);
      }
      forall o <- t.orders ensures OrderAgrees(t, o) {
        assert OrderAgrees(s, o);
      }
    case Deliver(e) =>
      match e
      case OrderConfirmedEvent(_, _, _, _, _) => ConfirmKeepsAgreement(legs, s, e);
      case OrderCancelledEvent(_, _, _, _, _) => CancelKeepsAgreement(legs, s, e);
      case SettlementSubmittedEvent(_, _, _, _) => SubmitKeepsAgreement(legs, s, e);
      case TradeConfirmedEvent(_, _, _, _, _, _) => TradeKeepsAgreement(legs, s, e);
      case ChainReorgEvent(_, _, _, _) => ReorgKeepsAgreement(legs, s, e);
  }

  lemma {:induction false} RunAgrees(legs: Legs, steps: seq<Step>)
    requires ValidRun(legs, EmptyStore, steps)
    ensures Agreement(legs, Run(EmptyStore, steps))
  {
    if steps != [] {
      RunAgrees(legs, steps[..|steps| - 1]);
      StepKeepsAgreement(legs, Run(EmptyStore, steps[..|steps| - 1]), steps[|steps| - 1]);
    }
  }

  ghost predicate ConfirmedFor(s: Store, tx: TxHash, order: OrderId) {
    tx in s.trades && s.trades[tx].confirmed && (order == s.trades[tx].buy || order == s.trades[tx].sell)
  }

  // In every reachable state a trade is confirmed exactly when both its orders are filled by it in its block.
  lemma ConfirmedIffFilled(legs: Legs, steps: seq<Step>, tx: TxHash)
    requires ValidRun(legs, EmptyStore, steps) && tx in Run(EmptyStore, steps).trades
    ensures var s := Run(EmptyStore, steps);
      var t := s.trades[tx];
      t.confirmed <==> FilledBy(s, t.buy, tx, t.block) && FilledBy(s, t.sell, tx, t.block)
  {
    RunAgrees(legs, steps);
    var s := Run(EmptyStore, steps);
    assert TradeAgrees(legs, s, tx);
    if FilledBy(s, s.trades[tx].buy, tx, s.trades[tx].block) {
      assert OrderAgrees(s, s.trades[tx].buy);
    }
  }

  // Every filled order has a confirmed trade, and no order has two.
  lemma FilledHasOneTrade(legs: Legs, steps: seq<Step>, order: OrderId)
    requires ValidRun(legs, EmptyStore, steps)
    ensures var s := Run(EmptyStore, steps);
      && (order in s.orders && s.orders[order].status == Filled <==> exists tx :: ConfirmedFor(s, tx, order))
      && (forall tx, tx' :: ConfirmedFor(s, tx, order) && ConfirmedFor(s, tx', order) ==> tx == tx')
  {
    RunAgrees(legs, steps);
    var s := Run(EmptyStore, steps);
    if order in s.orders && s.orders[order].status == Filled {
      assert OrderAgrees(s, order);
      assert ConfirmedFor(s, s.orders[order].settlementTx.value, order);
    }
    forall tx | ConfirmedFor(s, tx, order)
      ensures order in s.orders && s.orders[order].status == Filled && s.orders[order].settlementTx == Some(tx)
    {
      assert TradeAgrees(legs, s, tx);
    }
  }

  // A filled or cancelled order keeps its whole document until a reorg rolls it back.
  lemma ClosedUntilReorg(legs: Legs, s: Store, step: Step, order: OrderId)
    requires Allowed(legs, s, step) && order in s.orders && s.orders[order].status in {Filled, Canceled}
    requires !(step.Deliver? && step.event.ChainReorgEvent?)
    ensures order in Next(s, step).orders && Next(s, step).orders[order] == s.orders[order]
  {
    if step.Deliver? && step.event.SettlementSubmittedEvent? {
      PairPresent(step.event.first, step.event.second, s.orders.Keys);
    } else if step.Deliver? && step.event.TradeConfirmedEvent? {
      PairPresent(step.event.buy, step.event.sell, s.orders.Keys);
    }
  }

  // ---- Rollback equals replay ----

  // What the projection says about an order: open, or closed at a block by a transaction. Absent and
  // orphaned orders have no entry.
  datatype View =
    | Open(block: nat, hash: string)
    | Closed(block: nat, hash: string, at: nat, spender: TxHash, filled: bool)

  datatype Book = Book(orders: map<OrderId, View>, trades: map<TxHash, (OrderId, OrderId, nat)>)

  function ViewOf(o: Order): View {
    if o.status in {Filled, Canceled} && o.spentAt.Some? && o.settlementTx.Some? then
      Closed(o.blockNumber, o.createdBlockHash, o.spentAt.value, o.settlementTx.value, o.status == Filled)
    else Open(o.blockNumber, o.createdBlockHash)
  }

  function OrdersView(m: map<OrderId, Order>): map<OrderId, View> {
    map k | k in m && m[k].status != Orphaned :: ViewOf(m[k])
  }

  function TradesView(m: map<TxHash, Trade>): map<TxHash, (OrderId, OrderId, nat)> {
    map tx | tx in m && m[tx].confirmed :: (m[tx].buy, m[tx].sell, m[tx].block)
  }

  function BookOf(s: Store): Book {
    Book(OrdersView(s.orders), TradesView(s.trades))
  }

  function BlockOf(e: Event): Option<nat> {
    match e
    case OrderConfirmedEvent(_, _, block, _, _) => Some(block)
    case OrderCancelledEvent(_, _, block, _, _) => Some(block)
    case TradeConfirmedEvent(_, _, _, _, block, _) => Some(block)
    case _ => None
  }

  // An event whose block a reorg reverts.
  predicate RolledBackBy(e: Event, reorg: Event) {
    reorg.ChainReorgEvent? && BlockOf(e).Some? && BlockOf(e).value >= RollbackFrom(reorg)
  }

  ghost predicate Survives(e: Event, later: seq<Event>) {
    !e.ChainReorgEvent? && forall j :: 0 <= j < |later| ==> !RolledBackBy(e, later[j])
  }

  // The events of a log that no later reorg rolled back; reorgs themselves are not replayed.
  ghost function Survivors(log: seq<Event>): seq<Event> {
    if log == [] then []
    else (if Survives(log[0], log[1..]) then [log[0]] else []) + Survivors(log[1..])
  }

  // The events a run applied, in order; ignored and failed deliveries leave no trace.
  function AppliedLog(s: Store, steps: seq<Step>): seq<Event> {
    if steps == [] then []
    else
      var last := steps[|steps| - 1];
      var before := Run(s, steps[..|steps| - 1]);
      AppliedLog(s, steps[..|steps| - 1])
      + if last.Deliver? && ApplyEvent(before, last.event).Applied? then [last.event] else []
  }

  function Close(v: View, at: nat, spender: TxHash, filled: bool): View {
    Closed(v.block, v.hash, at, spender, filled)
  }

  // The effect of an applied event on the book.
  function BookStep(b: Book, e: Event): Book {
    match e
    case OrderConfirmedEvent(_, order, block, hash, _) => b.(orders := b.orders[order := Open(block, hash)])
    case OrderCancelledEvent(_, order, block, _, tx) =>
      if order in b.orders then b.(orders := b.orders[order := Close(b.orders[order], block, tx, false)]) else b
    case TradeConfirmedEvent(_, buy, sell, tx, block, _) =>
      if buy in b.orders && sell in b.orders then
        Book(b.orders[buy := Close(b.orders[buy], block, tx, true)][sell := Close(b.orders[sell], block, tx, true)],
             b.trades[tx := (buy, sell, block)])
      else b
    case SettlementSubmittedEvent(_, _, _, _) => b
    case ChainReorgEvent(_, _, _, _) => Rewind(b, RollbackFrom(e))
  }

  function RewindView(v: View, from: int): View {
    if v.Closed? && v.at >= from then Open(v.block, v.hash) else v
  }

  function RewindOrders(m: map<OrderId, View>, from: int): map<OrderId, View> {
    map k | k in m && m[k].block < from :: RewindView(m[k], from)
  }

  function RewindTrades(m: map<TxHash, (OrderId, OrderId, nat)>, from: int): map<TxHash, (OrderId, OrderId, nat)> {
    map tx | tx in m && m[tx].2 < from :: m[tx]
  }

  function Rewind(b: Book, from: int): Book {
    Book(RewindOrders(b.orders, from), RewindTrades(b.trades, from))
  }

  predicate OpenBy(b: Book, order: OrderId, block: nat) {
    order in b.orders && b.orders[order].Open? && b.orders[order].block <= block
  }

  // When an event takes effect, seen from the book alone.
  predicate TakesEffect(legs: Legs, b: Book, e: Event) {
    match e
    case OrderConfirmedEvent(_, order, _, _, _) => order !in b.orders
    case OrderCancelledEvent(_, order, block, _, _) => OpenBy(b, order, block)
    case TradeConfirmedEvent(_, buy, sell, tx, block, _) =>
      buy != sell && legs(tx) == (buy, sell) && OpenBy(b, buy, block) && OpenBy(b, sell, block) && tx !in b.trades
    case _ => true
  }

  function BookRun(b: Book, log: seq<Event>): Book {
    if log == [] then b else BookStep(BookRun(b, log[..|log| - 1]), log[|log| - 1])
  }

  ghost predicate EffectiveLog(legs: Legs, b: Book, log: seq<Event>) {
    log == [] ||
    (EffectiveLog(legs, b, log[..|log| - 1]) && TakesEffect(legs, BookRun(b, log[..|log| - 1]), log[|log| - 1]))
  }

  const EmptyBook := Book(map[], map[])

  lemma OrdersViewUpdate(m: map<OrderId, Order>, k: OrderId, o: Order)
    requires o.status != Orphaned
    ensures OrdersView(m[k := o]) == OrdersView(m)[k := ViewOf(o)]
  {
  }

  lemma TradesViewUpdate(m: map<TxHash, Trade>, k: TxHash, t: Trade)
    requires t.confirmed
    ensures TradesView(m[k := t]) == TradesView(m)[k := (t.buy, t.sell, t.block)]
  {
  }

  lemma CancelMatchesBook(legs: Legs, s: Store, e: Event)
    requires e.OrderCancelledEvent? && Agreement(legs, s) && Delivered(legs, s, e) && ApplyEvent(s, e).Applied?
    ensures TakesEffect(legs, BookOf(s), e)
    ensures BookOf(After(s, ApplyEvent(s, e))) == BookStep(BookOf(s), e)
  {
    assert OrderAgrees(s, e.order);
    OrdersViewUpdate(s.orders, e.order, After(s, ApplyEvent(s, e)).orders[e.order]);
  }

  lemma PendingKeepsView(m: map<OrderId, Order>, k: OrderId, e: Event)
    requires e.SettlementSubmittedEvent? && k in m && m[k].status in {Live, Reserved}
    ensures OrdersView(m[k := MarkPending(m[k], e)]) == OrdersView(m)
  {
    OrdersViewUpdate(m, k, MarkPending(m[k], e));
    assert OrdersView(m)[k := OrdersView(m)[k]] == OrdersView(m);
  }

  lemma SubmitMatchesBook(legs: Legs, s: Store, e: Event)
    requires e.SettlementSubmittedEvent? && Agreement(legs, s) && ApplyEvent(s, e).Applied?
    ensures BookOf(After(s, ApplyEvent(s, e))) == BookOf(s)
  {
    PairPresent(e.first, e.second, s.orders.Keys);
    assert OrderAgrees(s, e.first) && OrderAgrees(s, e.second);
    PendingKeepsView(s.orders, e.first, e);
    PendingKeepsView(s.orders[e.first := MarkPending(s.orders[e.first], e)], e.second, e);
  }

  lemma TradeTakesEffect(legs: Legs, s: Store, e: Event)
    requires e.TradeConfirmedEvent? && Agreement(legs, s) && Delivered(legs, s, e) && ApplyEvent(s, e).Applied?
    ensures e.buy != e.sell && {e.buy, e.sell} <= s.orders.Keys
    ensures s.orders[e.buy].status in {Live, Reserved, Pending} && s.orders[e.sell].status in {Live, Reserved, Pending}
    ensures e.tx in s.trades ==>
      !s.trades[e.tx].confirmed && (s.trades[e.tx].buy, s.trades[e.tx].sell) == (e.buy, e.sell)
    ensures TakesEffect(legs, BookOf(s), e)
  {
    PairPresent(e.buy, e.sell, s.orders.Keys);
    assert OrderAgrees(s, e.buy) && OrderAgrees(s, e.sell);
    assert e.tx in s.trades ==> TradeAgrees(legs, s, e.tx);
  }

  lemma TradeMatchesBook(legs: Legs, s: Store, e: Event)
    requires e.TradeConfirmedEvent? && Agreement(legs, s) && Delivered(legs, s, e) && ApplyEvent(s, e).Applied?
    ensures TakesEffect(legs, BookOf(s), e)
    ensures BookOf(After(s, ApplyEvent(s, e))) == BookStep(BookOf(s), e)
  {
    TradeTakesEffect(legs, s, e);
    var buyFilled, sellFilled := MarkFilled(s.orders[e.buy], e), MarkFilled(s.orders[e.sell], e);
    OrdersViewUpdate(s.orders, e.buy, buyFilled);
    OrdersViewUpdate(s.orders[e.buy := buyFilled], e.sell, sellFilled);
    TradesViewUpdate(s.trades, e.tx, Trade(e.buy, e.sell, e.block, e.blockHash, true, e.id));
  }

  lemma RollbackMatchesRewind(s: Store, e: Event, order: OrderId)
    requires e.ChainReorgEvent? && order in s.orders && OrderAgrees(s, order)
    ensures var o := s.orders[order];
      var r := RollbackOrder(o, e);
      (r.status != Orphaned <==> o.status != Orphaned && o.blockNumber < RollbackFrom(e))
      && (r.status != Orphaned ==>
            ViewOf(r) == RewindView(ViewOf(o), RollbackFrom(e)) && ViewOf(o).block == o.blockNumber)
  {
  }

  lemma PointwiseRewind(m: map<OrderId, Order>, n: map<OrderId, Order>, from: int)
    requires m.Keys == n.Keys
    requires forall k <- m :: n[k].status != Orphaned <==> m[k].status != Orphaned && ViewOf(m[k]).block < from
    requires forall k <- m :: n[k].status != Orphaned ==> ViewOf(n[k]) == RewindView(ViewOf(m[k]), from)
    ensures OrdersView(n) == RewindOrders(OrdersView(m), from)
  {
    var v, w := OrdersView(n), RewindOrders(OrdersView(m), from);
    assert v.Keys == w.Keys;
  }

  lemma TradesRewound(m: map<TxHash, Trade>, e: Event)
    requires e.ChainReorgEvent?
    ensures TradesView(map k | k in m :: RollbackTrade(m[k], e)) == RewindTrades(TradesView(m), RollbackFrom(e))
  {
  }

  lemma OrdersRewound(s: Store, e: Event)
    requires e.ChainReorgEvent? && forall o <- s.orders :: OrderAgrees(s, o)
    ensures OrdersView(map k | k in s.orders :: RollbackOrder(s.orders[k], e)) ==
      RewindOrders(OrdersView(s.orders), RollbackFrom(e))
  {
    var n := map k | k in s.orders :: RollbackOrder(s.orders[k], e);
    forall k <- s.orders
      ensures n[k].status != Orphaned <==> s.orders[k].status != Orphaned && ViewOf(s.orders[k]).block < RollbackFrom(e)
      ensures n[k].status != Orphaned ==> ViewOf(n[k]) == RewindView(ViewOf(s.orders[k]), RollbackFrom(e))
    {
      RollbackMatchesRewind(s, e, k);
    }
    PointwiseRewind(s.orders, n, RollbackFrom(e));
  }

  lemma ReorgMatchesBook(legs: Legs, s: Store, e: Event)
    requires e.ChainReorgEvent? && Agreement(legs, s)
    ensures BookOf(After(s, ApplyEvent(s, e))) == BookStep(BookOf(s), e)
  {
    OrdersRewound(s, e);
    TradesRewound(s.trades, e);
  }

  // A delivered event that is applied takes effect in the book, with the effect BookStep says.
  lemma ApplyMatchesBook(legs: Legs, s: Store, e: Event)
    requires Agreement(legs, s) && Delivered(legs, s, e) && ApplyEvent(s, e).Applied?
    ensures TakesEffect(legs, BookOf(s), e)
    ensures BookOf(After(s, ApplyEvent(s, e))) == BookStep(BookOf(s), e)
  {
    match e
    case OrderConfirmedEvent(_, _, _, _, _) =>
      OrdersViewUpdate(s.orders, e.order, ApplyEvent(s, e).store.orders[e.order]);
    case OrderCancelledEvent(_, _, _, _, _) => CancelMatchesBook(legs, s, e);
    case SettlementSubmittedEvent(_, _, _, _) => SubmitMatchesBook(legs, s, e);
    case TradeConfirmedEvent(_, _, _, _, _, _) => TradeMatchesBook(legs, s, e);
    case ChainReorgEvent(_, _, _, _) => ReorgMatchesBook(legs, s, e);
  }

  lemma CancelBookApplies(legs: Legs, s: Store, e: Event)
    requires e.OrderCancelledEvent? && Agreement(legs, s) && TakesEffect(legs, BookOf(s), e)
    ensures Delivered(legs, s, e) && ApplyEvent(s, e).Applied?
  {
    assert OrderAgrees(s, e.order);
  }

  lemma TradeBookApplies(legs: Legs, s: Store, e: Event)
    requires e.TradeConfirmedEvent? && Agreement(legs, s) && TakesEffect(legs, BookOf(s), e)
    ensures Delivered(legs, s, e) && ApplyEvent(s, e).Applied?
  {
    assert OrderAgrees(s, e.buy) && OrderAgrees(s, e.sell);
    PairPresent(e.buy, e.sell, s.orders.Keys);
  }

  // Conversely an event that takes effect in the book is deliverable and applied.
  lemma BookMatchesApply(legs: Legs, s: Store, e: Event)
    requires Agreement(legs, s) && TakesEffect(legs, BookOf(s), e) && BlockOf(e).Some?
    ensures Delivered(legs, s, e) && ApplyEvent(s, e).Applied?
  {
    match e
    case OrderCancelledEvent(_, _, _, _, _) => CancelBookApplies(legs, s, e);
    case TradeConfirmedEvent(_, _, _, _, _, _) => TradeBookApplies(legs, s, e);
    case _ =>
  }

  lemma ReserveKeepsBook(s: Store, order: OrderId, until: nat)
    ensures BookOf(ReserveOrder(s, order, until)) == BookOf(s)
  {
    assert BookOf(ReserveOrder(s, order, until)).orders == BookOf(s).orders;
  }

  // The book of a run is the fold of its applied log.
  lemma {:induction false} RunMatchesBook(legs: Legs, steps: seq<Step>)
    requires ValidRun(legs, EmptyStore, steps)
    ensures EffectiveLog(legs, EmptyBook, AppliedLog(EmptyStore, steps))
    ensures BookOf(Run(EmptyStore, steps)) == BookRun(EmptyBook, AppliedLog(EmptyStore, steps))
  {
    if steps == [] {
      assert BookOf(EmptyStore) == EmptyBook;
    } else {
      var n := |steps| - 1;
      RunMatchesBook(legs, steps[..n]);
      RunAgrees(legs, steps[..n]);
      var before := Run(EmptyStore, steps[..n]);
      var log := AppliedLog(EmptyStore, steps[..n]);
      match steps[n]
      case Reserve(order, until) =>
        ReserveKeepsBook(before, order, until);
        assert AppliedLog(EmptyStore, steps) == log;
      case Deliver(e) =>
        if ApplyEvent(before, e).Applied? {
          ApplyMatchesBook(legs, before, e);
          assert AppliedLog(EmptyStore, steps) == log + [e];
          assert (log + [e])[..|log|] == log;
        } else {
          assert AppliedLog(EmptyStore, steps) == log;
        }
    }
  }

  // Events below a block.
  function Below(log: seq<Event>, from: int): seq<Event> {
    if log == [] then []
    else
      var last := log[|log| - 1];
      Below(log[..|log| - 1], from) + if BlockOf(last).None? || BlockOf(last).value < from then [last] else []
  }

  lemma {:induction false} BelowConcat(s: seq<Event>, t: seq<Event>, from: int)
    ensures Below(s + t, from) == Below(s, from) + Below(t, from)
  {
    if t == [] {
      assert s + t == s;
    } else {
      BelowConcat(s, t[..|t| - 1], from);
      assert (s + t)[..|s + t| - 1] == s + t[..|t| - 1];
    }
  }

  lemma SurvivesSnoc(head: Event, later: seq<Event>, e: Event)
    ensures Survives(head, later + [e]) <==> Survives(head, later) && !RolledBackBy(head, e)
  {
    assert forall j :: 0 <= j < |later| ==> (later + [e])[j] == later[j];
    assert (later + [e])[|later|] == e;
  }

  lemma BelowOne(e: Event, from: int)
    ensures Below([e], from) == if BlockOf(e).None? || BlockOf(e).value < from then [e] else []
  {
    assert [e][..0] == [];
  }

  lemma {:induction false} SurvivorsKept(log: seq<Event>, e: Event)
    requires !e.ChainReorgEvent?
    ensures Survivors(log + [e]) == Survivors(log) + [e]
  {
    if log == [] {
      assert [] + [e] == [e] && [e][1..] == [];
    } else {
      var head, rest := log[0], log[1..];
      SurvivorsKept(rest, e);
      SurvivesSnoc(head, rest, e);
      assert log + [e] == [head] + (rest + [e]);
      var kept := if Survives(head, rest) then [head] else [];
      assert kept + (Survivors(rest) + [e]) == (kept + Survivors(rest)) + [e];
    }
  }

  lemma {:induction false} SurvivorsCut(log: seq<Event>, e: Event)
    requires e.ChainReorgEvent?
    ensures Survivors(log + [e]) == Below(Survivors(log), RollbackFrom(e))
  {
    if log == [] {
      assert [] + [e] == [e] && [e][1..] == [];
    } else {
      var head, rest := log[0], log[1..];
      SurvivorsCut(rest, e);
      SurvivesSnoc(head, rest, e);
      assert log + [e] == [head] + (rest + [e]);
      BelowOne(head, RollbackFrom(e));
      BelowConcat(if Survives(head, rest) then [head] else [], Survivors(rest), RollbackFrom(e));
    }
  }

  lemma RewindOrdersUpdate(m: map<OrderId, View>, k: OrderId, v: View, from: int)
    ensures v.block < from ==> RewindOrders(m[k := v], from) == RewindOrders(m, from)[k := RewindView(v, from)]
    ensures v.block >= from && k !in RewindOrders(m, from) ==> RewindOrders(m[k := v], from) == RewindOrders(m, from)
  {
  }

  lemma RewindTradesUpdate(m: map<TxHash, (OrderId, OrderId, nat)>, k: TxHash, t: (OrderId, OrderId, nat), from: int)
    ensures t.2 < from ==> RewindTrades(m[k := t], from) == RewindTrades(m, from)[k := t]
    ensures t.2 >= from && k !in m ==> RewindTrades(m[k := t], from) == RewindTrades(m, from)
  {
  }

  // Closing an open order above the rollback point is undone by the rewind; below it, it commutes.
  lemma RewindClose(m: map<OrderId, View>, k: OrderId, at: nat, spender: TxHash, filled: bool, from: int)
    requires k in m && m[k].Open? && m[k].block <= at
    ensures var c := Close(m[k], at, spender, filled);
      && (at >= from ==> RewindOrders(m[k := c], from) == RewindOrders(m, from))
      && (at < from ==> k in RewindOrders(m, from) && RewindOrders(m, from)[k] == m[k]
                        && RewindOrders(m[k := c], from) == RewindOrders(m, from)[k := c])
  {
    var c := Close(m[k], at, spender, filled);
    RewindOrdersUpdate(m, k, c, from);
    if at >= from && c.block < from {
      assert RewindOrders(m, from)[k := RewindOrders(m, from)[k]] == RewindOrders(m, from);
    }
  }

  // An event above the rollback point leaves no trace after the rewind.
  lemma RewindForgets(legs: Legs, b: Book, e: Event, from: int)
    requires TakesEffect(legs, b, e) && BlockOf(e).Some? && BlockOf(e).value >= from
    ensures Rewind(BookStep(b, e), from) == Rewind(b, from)
  {
    match e
    case OrderConfirmedEvent(_, order, block, hash, _) =>
      RewindOrdersUpdate(b.orders, order, Open(block, hash), from);
    case OrderCancelledEvent(_, order, block, _, tx) =>
      RewindClose(b.orders, order, block, tx, false, from);
    case TradeConfirmedEvent(_, buy, sell, tx, block, _) =>
      RewindClose(b.orders, buy, block, tx, true, from);
      RewindClose(b.orders[buy := Close(b.orders[buy], block, tx, true)], sell, block, tx, true, from);
      RewindTradesUpdate(b.trades, tx, (buy, sell, block), from);
  }

  // An event below it takes the same effect on the rewound book.
  lemma RewindCommutes(legs: Legs, b: Book, e: Event, from: int)
    requires TakesEffect(legs, b, e) && BlockOf(e).Some? && BlockOf(e).value < from
    ensures TakesEffect(legs, Rewind(b, from), e)
    ensures Rewind(BookStep(b, e), from) == BookStep(Rewind(b, from), e)
  {
    match e
    case OrderConfirmedEvent(_, order, block, hash, _) =>
      RewindOrdersUpdate(b.orders, order, Open(block, hash), from);
    case OrderCancelledEvent(_, order, block, _, tx) =>
      RewindClose(b.orders, order, block, tx, false, from);
    case TradeConfirmedEvent(_, buy, sell, tx, block, _) =>
      RewindClose(b.orders, buy, block, tx, true, from);
      RewindClose(b.orders, sell, block, tx, true, from);
      RewindClose(b.orders[buy := Close(b.orders[buy], block, tx, true)], sell, block, tx, true, from);
      RewindTradesUpdate(b.trades, tx, (buy, sell, block), from);
  }

  ghost predicate NoReorg(log: seq<Event>) {
    forall i :: 0 <= i < |log| ==> !log[i].ChainReorgEvent?
  }

  // Rewinding what a reorg-free log built is the same as never having applied the reverted events.
  lemma {:induction false} RewindIsFilter(legs: Legs, log: seq<Event>, from: int)
    requires NoReorg(log) && EffectiveLog(legs, EmptyBook, log)
    ensures NoReorg(Below(log, from)) && EffectiveLog(legs, EmptyBook, Below(log, from))
    ensures BookRun(EmptyBook, Below(log, from)) == Rewind(BookRun(EmptyBook, log), from)
  {
    if log == [] {
      assert Rewind(EmptyBook, from) == EmptyBook;
    } else {
      var n := |log| - 1;
      var e := log[n];
      RewindIsFilter(legs, log[..n], from);
      var kept := Below(log[..n], from);
      assert (kept + [e])[..|kept|] == kept;
      if BlockOf(e).Some? && BlockOf(e).value >= from {
        RewindForgets(legs, BookRun(EmptyBook, log[..n]), e, from);
        assert Below(log, from) == kept;
      } else {
        assert Below(log, from) == kept + [e];
        if BlockOf(e).Some? {
          RewindCommutes(legs, BookRun(EmptyBook, log[..n]), e, from);
        }
      }
    }
  }

  // The book of any effective log, reorgs included, is the book of its survivors.
  lemma {:induction false} SurvivorsRebuild(legs: Legs, log: seq<Event>)
    requires EffectiveLog(legs, EmptyBook, log)
    ensures NoReorg(Survivors(log)) && EffectiveLog(legs, EmptyBook, Survivors(log))
    ensures BookRun(EmptyBook, log) == BookRun(EmptyBook, Survivors(log))
  {
    if log != [] {
      var n := |log| - 1;
      var e := log[n];
      SurvivorsRebuild(legs, log[..n]);
      assert log == log[..n] + [e];
      var kept := Survivors(log[..n]);
      if e.ChainReorgEvent? {
        SurvivorsCut(log[..n], e);
        RewindIsFilter(legs, kept, RollbackFrom(e));
        assert Survivors(log) == Below(kept, RollbackFrom(e));
      } else {
        SurvivorsKept(log[..n], e);
        assert (kept + [e])[..|kept|] == kept && (kept + [e])[|kept|] == e;
        assert Survivors(log) == kept + [e];
      }
    }
  }

  function Deliveries(log: seq<Event>): seq<Step> {
    seq(|log|, i requires 0 <= i < |log| => Deliver(log[i]))
  }

  // Delivering an effective reorg-free log to the empty collections is a valid run that builds its book.
  lemma {:induction false} ReplayBuildsBook(legs: Legs, log: seq<Event>)
    requires NoReorg(log) && EffectiveLog(legs, EmptyBook, log)
    ensures ValidRun(legs, EmptyStore, Deliveries(log))
    ensures BookOf(Run(EmptyStore, Deliveries(log))) == BookRun(EmptyBook, log)
  {
    if log == [] {
      assert BookOf(EmptyStore) == EmptyBook;
    } else {
      var n := |log| - 1;
      ReplayBuildsBook(legs, log[..n]);
      assert Deliveries(log)[..n] == Deliveries(log[..n]);
      RunAgrees(legs, Deliveries(log[..n]));
      var before := Run(EmptyStore, Deliveries(log[..n]));
      if BlockOf(log[n]).Some? {
        BookMatchesApply(legs, before, log[n]);
      }
      if ApplyEvent(before, log[n]).Applied? {
        ApplyMatchesBook(legs, before, log[n]);
      }
    }
  }

  // Rollback equals replay: after any valid run the collections show exactly what they would show had
  // only the applied events that no later reorg rolled back ever been delivered.
  lemma RollbackEqualsReplay(legs: Legs, steps: seq<Step>)
    requires ValidRun(legs, EmptyStore, steps)
    ensures var replay := Deliveries(Survivors(AppliedLog(EmptyStore, steps)));
      ValidRun(legs, EmptyStore, replay) && BookOf(Run(EmptyStore, steps)) == BookOf(Run(EmptyStore, replay))
  {
    var log := AppliedLog(EmptyStore, steps);
    RunMatchesBook(legs, steps);
    SurvivorsRebuild(legs, log);
    ReplayBuildsBook(legs, Survivors(log));
  }
}
