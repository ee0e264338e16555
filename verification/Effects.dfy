// What each event does to the documents, field by field: when it is applied, what it writes, what it leaves
// alone, and what a rollback gives back.
module Effects {
  import opened Bytes
  import opened Lists
  import opened Projection
  import opened Rollback

  // The documents other than these are as before.
  ghost predicate OnlyOrders(s: Store, t: Store, ids: set<OrderId>) {
    t.orders.Keys == s.orders.Keys + ids && forall o <- s.orders :: o !in ids ==> t.orders[o] == s.orders[o]
  }

  // What an order was created with.
  predicate SameCreation(o: Order, p: Order) {
    o.doc == p.doc && o.blockNumber == p.blockNumber && o.createdBlockHash == p.createdBlockHash
  }

  // An order that nothing has happened to since its confirmation.
  predicate Untouched(o: Order) {
    o.status == Live && o.spentAt.None? && o.spentBlockHash.None? && o.settlementTx.None? && o.pendingTx.None?
    && o.reservedUntil.None?
  }

  // ---- The lifecycle ----

  // From which statuses each status can be reached. Closed orders leave only by being orphaned, invalid ones
  // never, and nothing becomes DISCOVERED.
  lemma Lifecycle(s: Status)
    ensures !CanTransition(s, Discovered)
    ensures CanTransition(s, Live) <==> s in {Discovered, Reserved, Pending, Orphaned}
    ensures CanTransition(s, Reserved) <==> s in {Discovered, Live}
    ensures CanTransition(s, Pending) <==> s in {Discovered, Live, Reserved, SettlementSubmitted}
    ensures CanTransition(s, SettlementSubmitted) <==> s in {Discovered, Live}
    ensures CanTransition(s, Filled) <==> s !in {Filled, Canceled, Cancelled, Invalid}
    ensures CanTransition(s, Canceled) <==> s !in {Filled, Canceled, Cancelled, Invalid}
    ensures CanTransition(s, Cancelled) <==> s !in {Filled, Canceled, Cancelled, Invalid}
    ensures CanTransition(s, Invalid) <==> s !in {Filled, Canceled, Cancelled, Invalid}
    ensures CanTransition(s, Orphaned) <==> s !in {Invalid, Orphaned}
  {
  }

  // ---- One event ----

  // A confirmation is ignored exactly for an order that is there, not orphaned and from the same block, and
  // otherwise puts the event's row in, live and untouched.
  lemma ConfirmedEffect(s: Store, e: Event)
    requires e.OrderConfirmedEvent?
    ensures var r := ApplyEvent(s, e);
      && !r.Thrown?
      && (r.Ignored? <==> e.order in s.orders && s.orders[e.order].status != Orphaned
                          && s.orders[e.order].createdBlockHash == e.blockHash)
      && (r.Ignored? ==> r.reason == "order-already-indexed")
      && (r.Applied? ==>
            OnlyOrders(s, r.store, {e.order}) && r.store.trades == s.trades
            && var o := r.store.orders[e.order];
            && Untouched(o) && o.doc == e.doc && o.blockNumber == e.block && o.createdBlockHash == e.blockHash
            && o.confirmedAt == e.block && o.lastEvent == e.id)
  {
  }

  // A cancellation is ignored for an unknown order, refused for a closed or invalid one, and otherwise closes
  // the order in the spending block.
  lemma CancelledEffect(s: Store, e: Event)
    requires e.OrderCancelledEvent?
    ensures var r := ApplyEvent(s, e);
      && (r.Ignored? <==> e.order !in s.orders) && (r.Ignored? ==> r.reason == "order-not-found")
      && (r.Thrown? <==> e.order in s.orders && s.orders[e.order].status in {Filled, Canceled, Cancelled, Invalid})
      && (r.Applied? ==>
            OnlyOrders(s, r.store, {e.order}) && r.store.trades == s.trades
            && var o, p := s.orders[e.order], r.store.orders[e.order];
            && SameCreation(o, p) && p.pendingTx == o.pendingTx && p.reservedUntil == o.reservedUntil
            && p.status == Canceled && p.spentAt == Some(e.block) && p.confirmedAt == e.block
            && p.spentBlockHash == Some(e.blockHash) && p.settlementTx == Some(e.tx) && p.lastEvent == e.id)
  {
  }

  predicate CanSettle(s: Store, order: OrderId) {
    order in s.orders && s.orders[order].status in {Discovered, Live, Reserved, SettlementSubmitted}
  }

  // A submitted settlement makes two known orders pending together, exactly when neither is pending, closed,
  // invalid or orphaned.
  lemma SubmittedEffect(s: Store, e: Event)
    requires e.SettlementSubmittedEvent?
    ensures var r := ApplyEvent(s, e);
      && !r.Thrown?
      && (r.Applied? <==> e.first != e.second && CanSettle(s, e.first) && CanSettle(s, e.second))
      && (r == Ignored("order-not-found") <==>
            e.first == e.second || e.first !in s.orders || e.second !in s.orders)
      && (r.Ignored? ==> r.reason in {"order-not-found", "invalid-transition-to-pending"})
      && (r.Applied? ==>
            OnlyOrders(s, r.store, {e.first, e.second}) && r.store.trades == s.trades
            && forall o <- {e.first, e.second} ::
                 var p := r.store.orders[o];
                 && SameCreation(s.orders[o], p) && p.status == Pending && p.pendingTx == Some(e.tx)
                 && p.settlementTx == Some(e.tx) && p.spentAt == s.orders[o].spentAt
                 && p.spentBlockHash == s.orders[o].spentBlockHash && p.confirmedAt == s.orders[o].confirmedAt
                 && p.reservedUntil == s.orders[o].reservedUntil && p.lastEvent == e.id)
  {
    PairPresent(e.first, e.second, s.orders.Keys);
  }

  predicate CanFill(s: Store, order: OrderId) {
    order in s.orders && s.orders[order].status !in {Filled, Canceled, Cancelled, Invalid}
  }

  // A trade fills two known orders together, exactly when neither is closed or invalid, and records the trade;
  // a trade already on record keeps its legs.
  lemma TradeEffect(s: Store, e: Event)
    requires e.TradeConfirmedEvent?
    ensures var r := ApplyEvent(s, e);
      && !r.Thrown?
      && (r.Applied? <==> e.buy != e.sell && CanFill(s, e.buy) && CanFill(s, e.sell))
      && (r == Ignored("order-not-found") <==> e.buy == e.sell || e.buy !in s.orders || e.sell !in s.orders)
      && (r.Ignored? ==> r.reason in {"order-not-found", "invalid-transition-to-filled"})
      && (r.Applied? ==> OnlyOrders(s, r.store, {e.buy, e.sell}) && FilledAt(s, r.store, e, e.buy)
                         && FilledAt(s, r.store, e, e.sell) && TradeWritten(s, r.store, e))
  {
    PairPresent(e.buy, e.sell, s.orders.Keys);
  }

  ghost predicate FilledAt(s: Store, t: Store, e: Event, order: OrderId)
    requires e.TradeConfirmedEvent?
  {
    order in s.orders && order in t.orders
    && var p := t.orders[order];
    && SameCreation(s.orders[order], p) && p.status == Filled && p.spentAt == Some(e.block)
    && p.confirmedAt == e.block && p.spentBlockHash == Some(e.blockHash) && p.settlementTx == Some(e.tx)
    && p.pendingTx == Some(e.tx) && p.reservedUntil == s.orders[order].reservedUntil && p.lastEvent == e.id
  }

  ghost predicate TradeWritten(s: Store, t: Store, e: Event)
    requires e.TradeConfirmedEvent?
  {
    && t.trades.Keys == s.trades.Keys + {e.tx} && (forall x <- s.trades :: x != e.tx ==> t.trades[x] == s.trades[x])
    && var w := t.trades[e.tx];
    && w.confirmed && w.block == e.block && w.blockHash == e.blockHash && w.lastEvent == e.id
    && (w.buy, w.sell) == if e.tx in s.trades then (s.trades[e.tx].buy, s.trades[e.tx].sell) else (e.buy, e.sell)
  }

  // ---- A rollback ----

  // The first block a rollback reverts: the one after the ancestor, or the reverted one itself.
  function FirstReverted(e: Event): int
    requires e.ChainReorgEvent?
  {
    match e.ancestor
    case Some(a) => a + 1
    case None => e.reverted
  }

  predicate Closed(o: Order) {
    o.status in {Filled, Canceled, Cancelled}
  }

  // A rollback is always applied: it orphans what was created in a reverted block, reopens what was closed in
  // one, reverts its trades, and leaves everything else as it is.
  lemma ReorgEffect(s: Store, e: Event, order: OrderId, tx: TxHash)
    requires e.ChainReorgEvent?
    ensures ApplyEvent(s, e).Applied?
    ensures var t := ApplyEvent(s, e).store;
      && t.orders.Keys == s.orders.Keys && t.trades.Keys == s.trades.Keys
      && (order in s.orders ==>
            var o, p := s.orders[order], t.orders[order];
            if o.status != Orphaned && o.blockNumber >= FirstReverted(e) then
              && SameCreation(o, p) && p.status == Orphaned && p.reservedUntil.None? && p.pendingTx.None?
              && p.spentAt == o.spentAt && p.spentBlockHash == o.spentBlockHash && p.settlementTx == o.settlementTx
              && p.confirmedAt == o.confirmedAt && p.lastEvent == e.id
            else if Closed(o) && o.spentAt.Some? && o.spentAt.value >= FirstReverted(e) then
              SameCreation(o, p) && Untouched(p) && p.confirmedAt == o.confirmedAt && p.lastEvent == e.id
            else p == o)
      && (tx in s.trades ==>
            var u, w := s.trades[tx], t.trades[tx];
            if u.confirmed && u.block >= FirstReverted(e) then
              !w.confirmed && (w.buy, w.sell) == (u.buy, u.sell) && w.block == u.block && w.blockHash == u.blockHash
              && w.lastEvent == e.id
            else w == u)
  {
  }

  // The same order, but for when and by which event it was last confirmed.
  predicate BackTo(o: Order, p: Order) {
    p.(confirmedAt := o.confirmedAt, lastEvent := o.lastEvent) == o
  }

  // Rolling a cancellation back gives the order back as it was.
  lemma RollbackUndoesCancel(s: Store, e: Event, reorg: Event)
    requires e.OrderCancelledEvent? && reorg.ChainReorgEvent? && e.order in s.orders
    requires Untouched(s.orders[e.order]) && s.orders[e.order].blockNumber < FirstReverted(reorg) <= e.block
    ensures ApplyEvent(s, e).Applied?
    ensures var t := After(ApplyEvent(s, e).store, ApplyEvent(ApplyEvent(s, e).store, reorg));
      e.order in t.orders && BackTo(s.orders[e.order], t.orders[e.order])
  {
  }

  // Rolling a trade back gives both orders back as they were, and reverts the trade.
  lemma RollbackUndoesTrade(s: Store, e: Event, reorg: Event)
    requires e.TradeConfirmedEvent? && reorg.ChainReorgEvent? && e.buy != e.sell
    requires forall o <- {e.buy, e.sell} ::
      o in s.orders && Untouched(s.orders[o]) && s.orders[o].blockNumber < FirstReverted(reorg) <= e.block
    ensures ApplyEvent(s, e).Applied?
    ensures var t := After(ApplyEvent(s, e).store, ApplyEvent(ApplyEvent(s, e).store, reorg));
      && (forall o <- {e.buy, e.sell} :: o in t.orders && BackTo(s.orders[o], t.orders[o]))
      && e.tx in t.trades && !t.trades[e.tx].confirmed
  {
    TradeEffect(s, e);
    ReorgEffect(ApplyEvent(s, e).store, reorg, e.buy, e.tx);
    ReorgEffect(ApplyEvent(s, e).store, reorg, e.sell, e.tx);
  }

  // ---- Over runs ----

  // The step is about the order, or rolls its creating block back.
  predicate Touches(step: Step, order: OrderId, block: nat) {
    match step
    case Reserve(o, _) => o == order
    case Deliver(e) =>
      match e
      case OrderConfirmedEvent(_, o, _, _, _) => o == order
      case OrderCancelledEvent(_, o, _, _, _) => o == order
      case SettlementSubmittedEvent(_, first, second, _) => order in {first, second}
      case TradeConfirmedEvent(_, buy, sell, _, _, _) => order in {buy, sell}
      case ChainReorgEvent(_, _, _, _) => block >= FirstReverted(e)
  }

  lemma UntouchedStep(s: Store, step: Step, order: OrderId)
    requires order in s.orders && Untouched(s.orders[order]) && !Touches(step, order, s.orders[order].blockNumber)
    ensures order in Next(s, step).orders && Next(s, step).orders[order] == s.orders[order]
  {
    if step.Deliver? && step.event.SettlementSubmittedEvent? {
      SubmittedEffect(s, step.event);
    } else if step.Deliver? && step.event.TradeConfirmedEvent? {
      TradeEffect(s, step.event);
    }
  }

  // The order is live, with the row the event confirmed it with.
  ghost predicate LiveAsConfirmed(s: Store, e: Event)
    requires e.OrderConfirmedEvent?
  {
    e.order in s.orders
    && var o := s.orders[e.order];
    && Untouched(o) && o.doc == e.doc && o.blockNumber == e.block && o.createdBlockHash == e.blockHash
    && o.confirmedAt == e.block && o.lastEvent == e.id
  }

  lemma ConfirmedIsLive(s: Store, e: Event)
    requires e.OrderConfirmedEvent? && ApplyEvent(s, e).Applied?
    ensures LiveAsConfirmed(Next(s, Deliver(e)), e)
  {
    ConfirmedEffect(s, e);
  }

  lemma StaysLive(s: Store, step: Step, e: Event)
    requires e.OrderConfirmedEvent? && LiveAsConfirmed(s, e) && !Touches(step, e.order, e.block)
    ensures LiveAsConfirmed(Next(s, step), e)
  {
    UntouchedStep(s, step, e.order);
  }

  lemma {:induction false} StaysLiveAlong(s: Store, steps: seq<Step>, e: Event)
    requires e.OrderConfirmedEvent? && LiveAsConfirmed(s, e)
    requires forall j :: 0 <= j < |steps| ==> !Touches(steps[j], e.order, e.block)
    ensures LiveAsConfirmed(Run(s, steps), e)
  {
    if steps != [] {
      StaysLiveAlong(s, steps[..|steps| - 1], e);
      StaysLive(Run(s, steps[..|steps| - 1]), steps[|steps| - 1], e);
    }
  }

  // From any state: an order whose confirmation was applied, and that nothing reserved, submitted, closed or
  // rolled back since, is live, with the row it was confirmed with.
  lemma UntouchedIsLive(s: Store, e: Event, later: seq<Step>)
    requires e.OrderConfirmedEvent? && ApplyEvent(s, e).Applied?
    requires forall j :: 0 <= j < |later| ==> !Touches(later[j], e.order, e.block)
    ensures LiveAsConfirmed(Run(Next(s, Deliver(e)), later), e)
  {
    ConfirmedIsLive(s, e);
    StaysLiveAlong(Next(s, Deliver(e)), later, e);
  }

  // A reservation takes a live order out of the market and changes nothing else.
  lemma ReservedEffect(s: Store, order: OrderId, until: nat)
    ensures var t := Next(s, Reserve(order, until));
      if order in s.orders && s.orders[order].status == Live then
        OnlyOrders(s, t, {order}) && t.trades == s.trades
        && t.orders[order] == s.orders[order].(status := Reserved, reservedUntil := Some(until))
      else t == s
  {
  }
}
