// Replaying every delivery of a run, refused ones included: that it is a valid run, and which refusals last.
module Replay {
  import opened Bytes
  import opened Lists
  import opened Projection
  import opened Rollback

  // The events a run delivered, applied or not.
  function DeliveredLog(steps: seq<Step>): seq<Event> {
    if steps == [] then []
    else
      var last := steps[|steps| - 1];
      DeliveredLog(steps[..|steps| - 1]) + if last.Deliver? then [last.event] else []
  }

  // ---- Cutting at a block ----

  // The lowest block that is rolled back later, if any.
  type Cut = Option<int>

  predicate Under(block: int, cut: Cut) {
    cut.Some? ==> block < cut.value
  }

  function Lower(cut: Cut, from: int): Cut {
    if cut.Some? && cut.value <= from then cut else Some(from)
  }

  function CutLog(log: seq<Event>, cut: Cut): seq<Event> {
    if cut.None? then log else Below(log, cut.value)
  }

  function CutBook(b: Book, cut: Cut): Book {
    if cut.None? then b else Rewind(b, cut.value)
  }

  predicate Kept(e: Event, cut: Cut) {
    BlockOf(e).None? || Under(BlockOf(e).value, cut)
  }

  lemma {:induction false} BelowTwice(log: seq<Event>, a: int, b: int)
    ensures Below(Below(log, a), b) == Below(log, if a <= b then a else b)
  {
    if log != [] {
      var n := |log| - 1;
      BelowTwice(log[..n], a, b);
      BelowOne(log[n], b);
      BelowConcat(Below(log[..n], a), if Kept(log[n], Some(a)) then [log[n]] else [], b);
    }
  }

  lemma CutLogSnoc(log: seq<Event>, e: Event, cut: Cut)
    ensures CutLog(log + [e], cut) == CutLog(log, cut) + if Kept(e, cut) then [e] else []
  {
    if cut.Some? {
      BelowOne(e, cut.value);
      BelowConcat(log, [e], cut.value);
    }
  }

  lemma CutRewind(b: Book, from: int, cut: Cut)
    ensures CutBook(Rewind(b, from), cut) == CutBook(b, Lower(cut, from))
  {
  }

  // A cut forgets the events above it and lets the others take their effect.
  lemma CutStep(legs: Legs, b: Book, e: Event, cut: Cut)
    requires TakesEffect(legs, b, e) && !e.ChainReorgEvent?
    ensures CutBook(BookStep(b, e), cut) == if Kept(e, cut) then BookStep(CutBook(b, cut), e) else CutBook(b, cut)
    ensures Kept(e, cut) ==> TakesEffect(legs, CutBook(b, cut), e)
  {
    if cut.Some? && BlockOf(e).Some? {
      if BlockOf(e).value < cut.value {
        RewindCommutes(legs, b, e, cut.value);
      } else {
        RewindForgets(legs, b, e, cut.value);
      }
    }
  }

  // ---- The replay of a run ----

  // The deliveries that no later reorg of the run rolls back, nor the cut; without a cut, all survivors.
  ghost function ReplayOf(steps: seq<Step>, cut: Cut): seq<Step> {
    Deliveries(CutLog(Survivors(DeliveredLog(steps)), cut))
  }

  predicate IsReorg(step: Step) {
    step.Deliver? && step.event.ChainReorgEvent?
  }

  function CutBefore(step: Step, cut: Cut): Cut {
    if IsReorg(step) then Lower(cut, RollbackFrom(step.event)) else cut
  }

  lemma DeliveriesSnoc(log: seq<Event>, e: Event)
    ensures Deliveries(log + [e]) == Deliveries(log) + [Deliver(e)]
  {
  }

  lemma SurvivingSnoc(log: seq<Event>, e: Event, cut: Cut)
    ensures CutLog(Survivors(log + [e]), cut) ==
      if e.ChainReorgEvent? then CutLog(Survivors(log), Lower(cut, RollbackFrom(e)))
      else if Kept(e, cut) then CutLog(Survivors(log), cut) + [e]
      else CutLog(Survivors(log), cut)
  {
    if e.ChainReorgEvent? {
      SurvivorsCut(log, e);
      if cut.Some? {
        BelowTwice(Survivors(log), RollbackFrom(e), cut.value);
      }
    } else {
      SurvivorsKept(log, e);
      CutLogSnoc(Survivors(log), e, cut);
    }
  }

  lemma DeliveredSnoc(steps: seq<Step>, step: Step)
    ensures DeliveredLog(steps + [step]) ==
      if step.Deliver? then DeliveredLog(steps) + [step.event] else DeliveredLog(steps)
  {
    assert (steps + [step])[..|steps|] == steps;
  }

  predicate Replayed(step: Step, cut: Cut) {
    step.Deliver? && !IsReorg(step) && Kept(step.event, cut)
  }

  lemma ReplaySnoc(steps: seq<Step>, step: Step, cut: Cut)
    ensures var earlier := ReplayOf(steps, CutBefore(step, cut));
      ReplayOf(steps + [step], cut) == if Replayed(step, cut) then earlier + [step] else earlier
  {
    DeliveredSnoc(steps, step);
    if step.Deliver? {
      SurvivingSnoc(DeliveredLog(steps), step.event, cut);
      DeliveriesSnoc(CutLog(Survivors(DeliveredLog(steps)), cut), step.event);
    }
  }

  lemma RunSnoc(legs: Legs, s: Store, steps: seq<Step>, step: Step)
    ensures Run(s, steps + [step]) == Next(Run(s, steps), step)
    ensures ValidRun(legs, s, steps + [step]) <==> ValidRun(legs, s, steps) && Allowed(legs, Run(s, steps), step)
  {
    assert (steps + [step])[..|steps|] == steps;
  }

  // The state a replay reaches, and the run's own, one step further.
  lemma ReplayRunSnoc(legs: Legs, steps: seq<Step>, step: Step, cut: Cut)
    ensures Run(EmptyStore, steps + [step]) == Next(Run(EmptyStore, steps), step)
    ensures var earlier, replay := ReplayOf(steps, CutBefore(step, cut)), ReplayOf(steps + [step], cut);
      && Run(EmptyStore, replay) ==
         (if Replayed(step, cut) then Next(Run(EmptyStore, earlier), step) else Run(EmptyStore, earlier))
      && (ValidRun(legs, EmptyStore, replay) <==>
          ValidRun(legs, EmptyStore, earlier)
            && (Replayed(step, cut) ==> Allowed(legs, Run(EmptyStore, earlier), step)))
  {
    ReplaySnoc(steps, step, cut);
    RunSnoc(legs, EmptyStore, steps, step);
    RunSnoc(legs, EmptyStore, ReplayOf(steps, CutBefore(step, cut)), step);
  }

  // ---- Replays are valid runs ----

  ghost predicate NoOrphans(s: Store) {
    forall o <- s.orders :: s.orders[o].status != Orphaned
  }

  // The same orders, created in the same blocks.
  ghost predicate SameCreations(b: Book, c: Book) {
    b.orders.Keys == c.orders.Keys
    && forall o <- b.orders :: b.orders[o].block == c.orders[o].block && b.orders[o].hash == c.orders[o].hash
  }

  lemma NoOrphansAfter(s: Store, e: Event)
    requires NoOrphans(s) && !e.ChainReorgEvent?
    ensures NoOrphans(After(s, ApplyEvent(s, e)))
  {
  }

  lemma KnownIsListed(s: Store, o: OrderId)
    requires NoOrphans(s)
    ensures o in s.orders <==> o in BookOf(s).orders
    ensures o in s.orders ==> BookOf(s).orders[o].block == s.orders[o].blockNumber
  {
  }

  lemma DeliverMovesBook(legs: Legs, s: Store, e: Event)
    requires Agreement(legs, s) && Delivered(legs, s, e)
    ensures BookOf(After(s, ApplyEvent(s, e))) ==
      if ApplyEvent(s, e).Applied? then BookStep(BookOf(s), e) else BookOf(s)
    ensures ApplyEvent(s, e).Applied? ==> TakesEffect(legs, BookOf(s), e)
  {
    if ApplyEvent(s, e).Applied? {
      ApplyMatchesBook(legs, s, e);
    }
  }

  lemma CreationIsApplied(legs: Legs, s: Store, e: Event)
    requires e.OrderConfirmedEvent? && Delivered(legs, s, e)
    ensures ApplyEvent(s, e).Applied?
  {
  }

  // Only creations add orders, and nothing but a reorg moves or removes them.
  lemma StepKeepsCreations(b: Book, e: Event)
    requires !e.ChainReorgEvent? && !e.OrderConfirmedEvent?
    ensures SameCreations(b, BookStep(b, e))
  {
  }

  lemma CreationKeepsSame(b: Book, c: Book, e: Event)
    requires SameCreations(b, c) && e.OrderConfirmedEvent?
    ensures SameCreations(BookStep(b, e), BookStep(c, e))
  {
  }

  // What the run may deliver, the replay may deliver: their creations are the same below the cut.
  lemma ReplayMayDeliver(legs: Legs, s: Store, t: Store, e: Event, cut: Cut)
    requires Delivered(legs, s, e) && !e.ChainReorgEvent? && Kept(e, cut)
    requires NoOrphans(t) && SameCreations(BookOf(t), CutBook(BookOf(s), cut))
    ensures Delivered(legs, t, e)
  {
    var orders := match e
      case OrderConfirmedEvent(_, order, _, _, _) => {order}
      case OrderCancelledEvent(_, order, _, _, _) => {order}
      case TradeConfirmedEvent(_, buy, sell, _, _, _) => {buy, sell}
      case _ => {};
    forall o <- orders
      ensures o in t.orders ==> Present(s, o) && t.orders[o].blockNumber == s.orders[o].blockNumber
    {
      KnownIsListed(t, o);
    }
  }

  // Reorg-free, and below the cut the same orders from the same blocks as the run's book.
  ghost predicate Follows(t: Store, b: Book, cut: Cut) {
    NoOrphans(t) && SameCreations(BookOf(t), CutBook(b, cut))
  }

  lemma FollowsDelivery(legs: Legs, s: Store, t: Store, e: Event, cut: Cut)
    requires Agreement(legs, s) && Agreement(legs, t) && Delivered(legs, s, e) && !e.ChainReorgEvent?
    requires Follows(t, BookOf(s), cut)
    ensures Kept(e, cut) ==> Delivered(legs, t, e)
    ensures Follows(if Kept(e, cut) then After(t, ApplyEvent(t, e)) else t, BookOf(After(s, ApplyEvent(s, e))), cut)
  {
    DeliverMovesBook(legs, s, e);
    if ApplyEvent(s, e).Applied? {
      CutStep(legs, BookOf(s), e, cut);
    }
    if Kept(e, cut) {
      ReplayMayDeliver(legs, s, t, e, cut);
      DeliverMovesBook(legs, t, e);
      NoOrphansAfter(t, e);
      if e.OrderConfirmedEvent? {
        CreationIsApplied(legs, s, e);
        CreationIsApplied(legs, t, e);
        CreationKeepsSame(BookOf(t), CutBook(BookOf(s), cut), e);
      } else {
        StepKeepsCreations(BookOf(t), e);
        StepKeepsCreations(CutBook(BookOf(s), cut), e);
      }
    }
  }

  // The run's book below the cut, before and after a step that the replay leaves out.
  lemma UnreplayedMovesBook(legs: Legs, s: Store, step: Step, cut: Cut)
    requires Agreement(legs, s) && (!step.Deliver? || IsReorg(step))
    ensures CutBook(BookOf(Next(s, step)), cut) == CutBook(BookOf(s), CutBefore(step, cut))
  {
    if step.Deliver? {
      ReorgMatchesBook(legs, s, step.event);
      CutRewind(BookOf(s), RollbackFrom(step.event), cut);
    } else {
      ReserveKeepsBook(s, step.order, step.until);
    }
  }

  lemma FollowsStep(legs: Legs, before: seq<Step>, last: Step, cut: Cut)
    requires ValidRun(legs, EmptyStore, before) && Allowed(legs, Run(EmptyStore, before), last)
    requires var earlier := ReplayOf(before, CutBefore(last, cut));
      ValidRun(legs, EmptyStore, earlier)
        && Follows(Run(EmptyStore, earlier), BookOf(Run(EmptyStore, before)), CutBefore(last, cut))
    ensures var replay := ReplayOf(before + [last], cut);
      ValidRun(legs, EmptyStore, replay)
        && Follows(Run(EmptyStore, replay), BookOf(Run(EmptyStore, before + [last])), cut)
  {
    var earlier := ReplayOf(before, CutBefore(last, cut));
    RunAgrees(legs, before);
    RunAgrees(legs, earlier);
    ReplayRunSnoc(legs, before, last, cut);
    if last.Deliver? && !IsReorg(last) {
      FollowsDelivery(legs, Run(EmptyStore, before), Run(EmptyStore, earlier), last.event, cut);
    } else {
      UnreplayedMovesBook(legs, Run(EmptyStore, before), last, cut);
    }
  }

  lemma SplitRun(legs: Legs, steps: seq<Step>) returns (before: seq<Step>, last: Step)
    requires steps != [] && ValidRun(legs, EmptyStore, steps)
    ensures steps == before + [last] && |before| == |steps| - 1
    ensures ValidRun(legs, EmptyStore, before) && Allowed(legs, Run(EmptyStore, before), last)
  {
    before, last := steps[..|steps| - 1], steps[|steps| - 1];
  }

  // Whatever a run was refused, replaying its surviving deliveries respects D1 to D4 and creates the same orders.
  lemma {:induction false} ReplayIsValid(legs: Legs, steps: seq<Step>, cut: Cut)
    requires ValidRun(legs, EmptyStore, steps)
    ensures ValidRun(legs, EmptyStore, ReplayOf(steps, cut))
    ensures Follows(Run(EmptyStore, ReplayOf(steps, cut)), BookOf(Run(EmptyStore, steps)), cut)
    decreases |steps|
  {
    if steps == [] {
      EmptyReplay(cut);
    } else {
      var before, last := SplitRun(legs, steps);
      ReplayIsValid(legs, before, CutBefore(last, cut));
      FollowsStep(legs, before, last, cut);
    }
  }

  lemma EmptyReplay(cut: Cut)
    ensures ReplayOf([], cut) == [] && CutBook(BookOf(EmptyStore), cut) == BookOf(EmptyStore)
  {
    assert BookOf(EmptyStore) == EmptyBook;
  }

  // ---- Refusals ----

  function SpentBy(e: Event): set<OrderId> {
    match e
    case OrderCancelledEvent(_, order, _, _, _) => {order}
    case TradeConfirmedEvent(_, buy, sell, _, _, _) => {buy, sell}
    case _ => {}
  }

  predicate IsSpend(e: Event) {
    e.OrderCancelledEvent? || e.TradeConfirmedEvent?
  }

  predicate AppliedAt(steps: seq<Step>, k: nat)
    requires k < |steps|
  {
    steps[k].Deliver? && ApplyEvent(Run(EmptyStore, steps[..k]), steps[k].event).Applied?
  }

  // A cancellation or a trade the run ignored or threw out.
  predicate Refused(steps: seq<Step>, k: nat)
    requires k < |steps|
  {
    steps[k].Deliver? && IsSpend(steps[k].event) && !AppliedAt(steps, k)
  }

  // A block that no reorg after step k rolls back.
  ghost predicate Stands(steps: seq<Step>, k: nat, block: int, cut: Cut) {
    Under(block, cut) && forall j :: k < j < |steps| && IsReorg(steps[j]) ==> block < RollbackFrom(steps[j].event)
  }

  // Why a refusal lasts: the order was unknown, or closed in a block that is never rolled back.
  ghost predicate HeldBack(steps: seq<Step>, k: nat, order: OrderId, cut: Cut)
    requires k < |steps|
  {
    var s := Run(EmptyStore, steps[..k]);
    order in s.orders ==>
      var o := s.orders[order];
      o.status in {Filled, Canceled} && o.spentAt.Some? && Stands(steps, k, o.spentAt.value, cut)
  }

  ghost predicate RefusalLasts(steps: seq<Step>, k: nat, cut: Cut)
    requires k < |steps| && steps[k].Deliver?
  {
    var e := steps[k].event;
    (e.TradeConfirmedEvent? && e.buy == e.sell) || exists order :: order in SpentBy(e) && HeldBack(steps, k, order, cut)
  }

  ghost predicate LastsAt(steps: seq<Step>, k: nat, cut: Cut)
    requires k < |steps|
  {
    Refused(steps, k) && Stands(steps, k, BlockOf(steps[k].event).value, cut) ==> RefusalLasts(steps, k, cut)
  }

  // Every refused cancellation and trade whose own block stands was refused for a lasting reason.
  ghost predicate RefusalsLast(steps: seq<Step>, cut: Cut) {
    forall k: nat :: k < |steps| ==> LastsAt(steps, k, cut)
  }

  predicate OpenIn(b: Book, order: OrderId) {
    order in b.orders && b.orders[order].Open?
  }

  predicate ClosedIn(b: Book, order: OrderId) {
    order in b.orders && b.orders[order].Closed?
  }

  predicate AllOpen(b: Book, e: Event) {
    match e
    case OrderCancelledEvent(_, order, _, _, _) => OpenIn(b, order)
    case TradeConfirmedEvent(_, buy, sell, _, _, _) => buy != sell && OpenIn(b, buy) && OpenIn(b, sell)
    case _ => true
  }

  lemma OpenMeaning(s: Store, order: OrderId)
    requires order in s.orders ==> OrderAgrees(s, order)
    ensures OpenIn(BookOf(s), order) <==> order in s.orders && s.orders[order].status in {Live, Reserved, Pending}
  {
  }

  lemma CloseAllowed(s: Store, order: OrderId)
    requires order in s.orders && OrderAgrees(s, order) && Present(s, order)
    ensures CanTransition(s.orders[order].status, Canceled) <==> OpenIn(BookOf(s), order)
    ensures CanTransition(s.orders[order].status, Filled) <==> OpenIn(BookOf(s), order)
  {
    OpenMeaning(s, order);
  }

  lemma TradeAppliedIffOpen(s: Store, e: Event)
    requires e.TradeConfirmedEvent?
    requires forall o :: o in {e.buy, e.sell} && o in s.orders ==> OrderAgrees(s, o) && Present(s, o)
    ensures ApplyEvent(s, e).Applied? <==> e.buy != e.sell && OpenIn(BookOf(s), e.buy) && OpenIn(BookOf(s), e.sell)
  {
    PairPresent(e.buy, e.sell, s.orders.Keys);
    OpenMeaning(s, e.buy);
    OpenMeaning(s, e.sell);
    if e.buy in s.orders && e.sell in s.orders {
      CloseAllowed(s, e.buy);
      CloseAllowed(s, e.sell);
    }
  }

  // A spend is applied exactly when the book shows all its orders open.
  lemma AppliedIffOpen(legs: Legs, s: Store, e: Event)
    requires Agreement(legs, s) && Delivered(legs, s, e) && IsSpend(e)
    ensures ApplyEvent(s, e).Applied? <==> AllOpen(BookOf(s), e)
  {
    if e.TradeConfirmedEvent? {
      assert forall o :: o in {e.buy, e.sell} && o in s.orders ==> OrderAgrees(s, o) && Present(s, o);
      TradeAppliedIffOpen(s, e);
    } else if e.order in s.orders {
      assert OrderAgrees(s, e.order);
      CloseAllowed(s, e.order);
    }
  }

  // An order known to the run and created below the cut is open below the cut unless it was closed there.
  lemma OpenBelowCut(s: Store, order: OrderId, block: nat, cut: Cut)
    requires order in s.orders ==> OrderAgrees(s, order) && Present(s, order) && s.orders[order].blockNumber <= block
    requires Under(block, cut)
    ensures OpenIn(CutBook(BookOf(s), cut), order) <==>
      order in s.orders && !(s.orders[order].status in {Filled, Canceled} && s.orders[order].spentAt.Some?
                             && Under(s.orders[order].spentAt.value, cut))
  {
  }

  lemma HeldBackAtEnd(before: seq<Step>, last: Step, order: OrderId, cut: Cut)
    ensures var s := Run(EmptyStore, before);
      HeldBack(before + [last], |before|, order, cut) <==>
        (order in s.orders ==> s.orders[order].status in {Filled, Canceled} && s.orders[order].spentAt.Some?
                               && Under(s.orders[order].spentAt.value, cut))
  {
    assert (before + [last])[..|before|] == before;
  }

  lemma LegHeldBack(legs: Legs, before: seq<Step>, last: Step, order: OrderId, block: nat, cut: Cut)
    requires var s := Run(EmptyStore, before);
      order in s.orders ==> OrderAgrees(s, order) && Present(s, order) && s.orders[order].blockNumber <= block
    requires Under(block, cut)
    ensures HeldBack(before + [last], |before|, order, cut) <==>
      !OpenIn(CutBook(BookOf(Run(EmptyStore, before)), cut), order)
  {
    HeldBackAtEnd(before, last, order, cut);
    OpenBelowCut(Run(EmptyStore, before), order, block, cut);
  }

  lemma RefusalByLegs(steps: seq<Step>, k: nat, cut: Cut)
    requires k < |steps| && steps[k].Deliver? && IsSpend(steps[k].event)
    ensures var e := steps[k].event;
      RefusalLasts(steps, k, cut) <==>
        if e.OrderCancelledEvent? then HeldBack(steps, k, e.order, cut)
        else e.buy == e.sell || HeldBack(steps, k, e.buy, cut) || HeldBack(steps, k, e.sell, cut)
  {
    var e := steps[k].event;
    if e.TradeConfirmedEvent? {
      assert e.buy in SpentBy(e) && e.sell in SpentBy(e);
    } else {
      assert e.order in SpentBy(e);
    }
  }

  lemma LastRefusal(legs: Legs, before: seq<Step>, e: Event, cut: Cut)
    requires Agreement(legs, Run(EmptyStore, before)) && Delivered(legs, Run(EmptyStore, before), e)
    requires IsSpend(e) && Kept(e, cut)
    ensures RefusalLasts(before + [Deliver(e)], |before|, cut) <==>
      !AllOpen(CutBook(BookOf(Run(EmptyStore, before)), cut), e)
  {
    assert (before + [Deliver(e)])[|before|] == Deliver(e);
    RefusalByLegs(before + [Deliver(e)], |before|, cut);
    if e.TradeConfirmedEvent? {
      LegHeldBack(legs, before, Deliver(e), e.buy, e.block, cut);
      LegHeldBack(legs, before, Deliver(e), e.sell, e.block, cut);
    } else {
      LegHeldBack(legs, before, Deliver(e), e.order, e.block, cut);
    }
  }

  lemma StandsSnoc(before: seq<Step>, last: Step, k: nat, block: int, cut: Cut)
    requires k < |before|
    ensures Stands(before + [last], k, block, cut) <==> Stands(before, k, block, CutBefore(last, cut))
  {
    var steps := before + [last];
    assert steps[|before|] == last && forall j :: 0 <= j < |before| ==> steps[j] == before[j];
  }

  lemma RefusalSnoc(before: seq<Step>, last: Step, k: nat, cut: Cut)
    requires k < |before|
    ensures Refused(before + [last], k) <==> Refused(before, k)
    ensures before[k].Deliver? ==>
      (RefusalLasts(before + [last], k, cut) <==> RefusalLasts(before, k, CutBefore(last, cut)))
  {
    var steps := before + [last];
    assert steps[..k] == before[..k] && steps[k] == before[k];
    if before[k].Deliver? {
      forall order | order in SpentBy(before[k].event)
        ensures HeldBack(steps, k, order, cut) <==> HeldBack(before, k, order, CutBefore(last, cut))
      {
        var s := Run(EmptyStore, before[..k]);
        if order in s.orders && s.orders[order].spentAt.Some? {
          StandsSnoc(before, last, k, s.orders[order].spentAt.value, cut);
        }
      }
    }
  }

  lemma LastsSnoc(before: seq<Step>, last: Step, k: nat, cut: Cut)
    requires k < |before|
    ensures LastsAt(before + [last], k, cut) <==> LastsAt(before, k, CutBefore(last, cut))
  {
    RefusalSnoc(before, last, k, cut);
    assert (before + [last])[k] == before[k];
    if Refused(before, k) {
      StandsSnoc(before, last, k, BlockOf(before[k].event).value, cut);
    }
  }

  lemma RefusalsSnoc(before: seq<Step>, last: Step, cut: Cut)
    ensures RefusalsLast(before + [last], cut) <==>
      (RefusalsLast(before, CutBefore(last, cut)) && LastsAt(before + [last], |before|, cut))
  {
    forall k: nat | k < |before|
      ensures LastsAt(before + [last], k, cut) <==> LastsAt(before, k, CutBefore(last, cut))
    {
      LastsSnoc(before, last, k, cut);
    }
  }

  lemma LastSpend(before: seq<Step>, e: Event, cut: Cut)
    requires IsSpend(e) && Kept(e, cut)
    ensures LastsAt(before + [Deliver(e)], |before|, cut) <==>
      (ApplyEvent(Run(EmptyStore, before), e).Applied? || RefusalLasts(before + [Deliver(e)], |before|, cut))
  {
    var steps := before + [Deliver(e)];
    assert steps[..|before|] == before && steps[|before|] == Deliver(e);
  }

  lemma AppliedStaysOpen(legs: Legs, s: Store, e: Event, cut: Cut)
    requires Agreement(legs, s) && Delivered(legs, s, e) && IsSpend(e) && Kept(e, cut) && ApplyEvent(s, e).Applied?
    ensures AllOpen(CutBook(BookOf(s), cut), e)
  {
    DeliverMovesBook(legs, s, e);
    CutStep(legs, BookOf(s), e, cut);
  }

  // The last spend is no passing refusal exactly when the run applied it or cannot apply it below the cut either.
  lemma SpendLasts(legs: Legs, before: seq<Step>, e: Event, cut: Cut)
    requires Agreement(legs, Run(EmptyStore, before)) && Delivered(legs, Run(EmptyStore, before), e)
    requires IsSpend(e) && Kept(e, cut)
    ensures var s := Run(EmptyStore, before);
      var c := CutBook(BookOf(s), cut);
      && (ApplyEvent(s, e).Applied? ==> AllOpen(c, e))
      && (LastsAt(before + [Deliver(e)], |before|, cut) <==> ApplyEvent(s, e).Applied? || !AllOpen(c, e))
  {
    LastRefusal(legs, before, e, cut);
    LastSpend(before, e, cut);
    if ApplyEvent(Run(EmptyStore, before), e).Applied? {
      AppliedStaysOpen(legs, Run(EmptyStore, before), e, cut);
    }
  }

  // A last step that is no spend below the cut has no refusal to look at.
  lemma NotAsked(before: seq<Step>, last: Step, cut: Cut)
    requires !(Replayed(last, cut) && IsSpend(last.event))
    ensures LastsAt(before + [last], |before|, cut)
  {
    assert (before + [last])[|before|] == last;
  }

  // A step that the replay leaves out moves neither book.
  lemma UnreplayedStep(legs: Legs, s: Store, step: Step, cut: Cut)
    requires Agreement(legs, s) && Allowed(legs, s, step) && !Replayed(step, cut)
    ensures CutBook(BookOf(Next(s, step)), cut) == CutBook(BookOf(s), CutBefore(step, cut))
  {
    if step.Deliver? && !IsReorg(step) {
      DeliverMovesBook(legs, s, step.event);
      if ApplyEvent(s, step.event).Applied? {
        CutStep(legs, BookOf(s), step.event, cut);
      }
    } else {
      UnreplayedMovesBook(legs, s, step, cut);
    }
  }
}
