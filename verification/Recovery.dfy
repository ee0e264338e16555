// What replaying every delivery of a run shows, exactly: the run's own book but for the refused spends that
// the replay lets through and the run has not made good.
module Recovery {
  import opened Bytes
  import opened Projection
  import opened Replay
  import opened Rollback
  import opened Settlement

  // ---- What the replay shows ----

  function OrdersOf(step: Step): set<OrderId> {
    if step.Deliver? then SpentBy(step.event) else {}
  }

  // The book shows the order closed by exactly this spend: same block, transaction and kind.
  predicate ClosedBy(b: Book, order: OrderId, e: Event) {
    IsSpend(e) && order in b.orders
    && b.orders[order] == Close(b.orders[order], BlockOf(e).value, e.tx, e.TradeConfirmedEvent?)
  }

  // ---- Claims: what the replay lets through ----

  type Claims = map<OrderId, Event>

  // A refused spend claims its orders, unless its refusal lasts or one of them is already claimed.
  function Claim(claims: Claims, step: Step, lasts: bool): Claims {
    if step.Deliver? && !lasts && SpentBy(step.event) !! claims.Keys then
      claims + map order | order in SpentBy(step.event) :: step.event
    else claims
  }

  function ClaimsAfter(steps: seq<Step>, lasting: seq<bool>): Claims
    requires |steps| == |lasting|
  {
    if steps == [] then map[]
    else
      var n := |steps| - 1;
      Claim(ClaimsAfter(steps[..n], lasting[..n]), steps[n], lasting[n])
  }

  ghost function Lasting(steps: seq<Step>, cut: Cut): seq<bool> {
    seq(|steps|, k requires 0 <= k < |steps| => LastsAt(steps, k, cut))
  }

  // The claims of the first n steps.
  ghost function ClaimsUpTo(steps: seq<Step>, n: nat, cut: Cut): Claims
    requires n <= |steps|
  {
    ClaimsAfter(steps[..n], Lasting(steps, cut)[..n])
  }

  // A refused spend that takes effect in the replay: its block stands, what it was refused for does not
  // last, and no earlier spend of this kind has one of its orders.
  ghost predicate Effective(steps: seq<Step>, k: nat, cut: Cut)
    requires k < |steps|
  {
    !LastsAt(steps, k, cut) && OrdersOf(steps[k]) !! ClaimsUpTo(steps, k, cut).Keys
  }

  // What an effective refused spend would have done, the run has done by its end.
  ghost predicate Healed(steps: seq<Step>, k: nat, cut: Cut)
    requires k < |steps|
  {
    Effective(steps, k, cut) ==>
      forall order :: order in OrdersOf(steps[k]) ==>
        ClosedBy(CutBook(BookOf(Run(EmptyStore, steps)), cut), order, steps[k].event)
  }

  ghost predicate AllHealed(steps: seq<Step>, cut: Cut) {
    forall k: nat :: k < |steps| ==> Healed(steps, k, cut)
  }

  // The replay's book is the run's book below the cut.
  ghost predicate Mirrors(steps: seq<Step>, cut: Cut) {
    BookOf(Run(EmptyStore, ReplayOf(steps, cut))) == CutBook(BookOf(Run(EmptyStore, steps)), cut)
  }

  ghost function ClaimsOf(steps: seq<Step>, cut: Cut): Claims {
    ClaimsUpTo(steps, |steps|, cut)
  }

  lemma ClaimsUnfold(steps: seq<Step>, n: nat, cut: Cut)
    requires n < |steps|
    ensures ClaimsUpTo(steps, n + 1, cut) == Claim(ClaimsUpTo(steps, n, cut), steps[n], LastsAt(steps, n, cut))
  {
    var lasting := Lasting(steps, cut);
    assert steps[..n + 1][..n] == steps[..n] && lasting[..n + 1][..n] == lasting[..n];
  }

  lemma ClaimsSnoc(before: seq<Step>, last: Step, cut: Cut)
    ensures ClaimsOf(before + [last], cut) ==
      Claim(ClaimsOf(before, CutBefore(last, cut)), last, LastsAt(before + [last], |before|, cut))
  {
    var steps, n := before + [last], |before|;
    forall k: nat | k < n
      ensures LastsAt(steps, k, cut) == LastsAt(before, k, CutBefore(last, cut))
    {
      LastsSnoc(before, last, k, cut);
    }
    assert Lasting(steps, cut)[..n] == Lasting(before, CutBefore(last, cut))[..n];
    assert steps[..n] == before[..n];
    ClaimsUnfold(steps, n, cut);
  }

  // Claims stay as they are.
  lemma {:induction false} ClaimsStay(steps: seq<Step>, lasting: seq<bool>, m: nat, n: nat, order: OrderId)
    requires m <= n <= |steps| == |lasting| && order in ClaimsAfter(steps[..m], lasting[..m])
    ensures order in ClaimsAfter(steps[..n], lasting[..n])
    ensures ClaimsAfter(steps[..n], lasting[..n])[order] == ClaimsAfter(steps[..m], lasting[..m])[order]
  {
    if m < n {
      ClaimsStay(steps, lasting, m, n - 1, order);
      assert steps[..n][..n - 1] == steps[..n - 1] && lasting[..n][..n - 1] == lasting[..n - 1];
    }
  }

  // A claim was made at some step.
  lemma {:induction false} ClaimMade(steps: seq<Step>, lasting: seq<bool>, n: nat, order: OrderId) returns (k: nat)
    requires n <= |steps| == |lasting| && order in ClaimsAfter(steps[..n], lasting[..n])
    ensures k < n && !lasting[k] && order in OrdersOf(steps[k])
    ensures OrdersOf(steps[k]) !! ClaimsAfter(steps[..k], lasting[..k]).Keys
    ensures ClaimsAfter(steps[..n], lasting[..n])[order] == steps[k].event
  {
    assert steps[..n][..n - 1] == steps[..n - 1] && lasting[..n][..n - 1] == lasting[..n - 1];
    k := n - 1;
    if order in ClaimsAfter(steps[..n - 1], lasting[..n - 1]) {
      k := ClaimMade(steps, lasting, n - 1, order);
    }
  }

  // The claims are the orders of the effective spends, each with its spend.
  lemma EffectiveClaims(steps: seq<Step>, k: nat, order: OrderId, cut: Cut)
    requires k < |steps| && Effective(steps, k, cut) && order in OrdersOf(steps[k])
    ensures order in ClaimsOf(steps, cut) && ClaimsOf(steps, cut)[order] == steps[k].event
  {
    ClaimsUnfold(steps, k, cut);
    ClaimsStay(steps, Lasting(steps, cut), k + 1, |steps|, order);
  }

  lemma ClaimIsEffective(steps: seq<Step>, order: OrderId, cut: Cut) returns (k: nat)
    requires order in ClaimsOf(steps, cut)
    ensures k < |steps| && Effective(steps, k, cut) && order in OrdersOf(steps[k])
    ensures ClaimsOf(steps, cut)[order] == steps[k].event
  {
    k := ClaimMade(steps, Lasting(steps, cut), |steps|, order);
  }

  // ---- The replay follows the run but for the claims ----

  // A spend claims all its orders at once.
  ghost predicate WellClaimed(legs: Legs, claims: Claims) {
    forall o <- claims ::
      var e := claims[o];
      && IsSpend(e) && o in SpentBy(e) && (e.TradeConfirmedEvent? ==> legs(e.tx) == (e.buy, e.sell))
      && forall p :: p in SpentBy(e) ==> p in claims && claims[p] == e
  }

  // Claimed orders are closed by their claims in the replay, and in the run open or closed alike; all other
  // orders are the same in both.
  ghost predicate Tracks(r: Book, c: Book, claims: Claims) {
    && SameCreations(r, c) && claims.Keys <= r.orders.Keys
    && (forall o <- r.orders :: o !in claims ==> r.orders[o] == c.orders[o])
    && (forall o <- claims :: ClosedBy(r, o, claims[o]) && (OpenIn(c, o) || ClosedBy(c, o, claims[o])))
  }

  // The run closed a claimed order in another way.
  ghost predicate Conflicts(r: Book, c: Book, claims: Claims) {
    exists o :: o in claims && ClosedBy(r, o, claims[o]) && ClosedIn(c, o) && !ClosedBy(c, o, claims[o])
  }

  lemma SpendStep(b: Book, e: Event)
    requires IsSpend(e) && AllOpen(b, e)
    ensures SpentBy(e) <= b.orders.Keys && SameCreations(BookStep(b, e), b)
    ensures forall o <- b.orders :: o !in SpentBy(e) ==> BookStep(b, e).orders[o] == b.orders[o]
    ensures forall o <- SpentBy(e) :: ClosedBy(BookStep(b, e), o, e)
  {
  }

  function Moved(b: Book, e: Event, applied: bool): Book {
    if applied then BookStep(b, e) else b
  }

  // Unclaimed orders are open in both books or in neither.
  lemma OpenAlike(r: Book, c: Book, claims: Claims, e: Event)
    requires Tracks(r, c, claims) && IsSpend(e) && SpentBy(e) !! claims.Keys
    ensures AllOpen(r, e) <==> AllOpen(c, e)
  {
    assert forall o <- SpentBy(e) :: OpenIn(r, o) <==> OpenIn(c, o);
  }

  lemma BothApply(r: Book, c: Book, claims: Claims, e: Event)
    requires Tracks(r, c, claims) && IsSpend(e) && SpentBy(e) !! claims.Keys && AllOpen(r, e) && AllOpen(c, e)
    ensures Tracks(BookStep(r, e), BookStep(c, e), claims)
  {
    SpendStep(r, e);
    SpendStep(c, e);
    var r', c' := BookStep(r, e), BookStep(c, e);
    forall o <- r'.orders | o !in claims
      ensures r'.orders[o] == c'.orders[o]
    {
      if o in SpentBy(e) {
        assert ClosedBy(r', o, e) && ClosedBy(c', o, e);
      }
    }
  }

  lemma ReplayApplies(r: Book, c: Book, claims: Claims, e: Event)
    requires Tracks(r, c, claims) && IsSpend(e) && SpentBy(e) !! claims.Keys && AllOpen(r, e) && AllOpen(c, e)
    ensures Tracks(BookStep(r, e), c, Claim(claims, Deliver(e), false))
  {
    SpendStep(r, e);
    var r', grown := BookStep(r, e), Claim(claims, Deliver(e), false);
    forall o <- grown
      ensures o in r'.orders && ClosedBy(r', o, grown[o]) && (OpenIn(c, o) || ClosedBy(c, o, grown[o]))
    {
      if o in claims {
        assert o !in SpentBy(e);
      } else {
        assert o in SpentBy(e) && OpenIn(c, o);
      }
    }
  }

  lemma UnclaimedSpendTracks(r: Book, c: Book, claims: Claims, e: Event, inRun: bool)
    requires Tracks(r, c, claims) && IsSpend(e) && SpentBy(e) !! claims.Keys
    requires inRun ==> AllOpen(c, e)
    ensures Tracks(Moved(r, e, AllOpen(r, e)), Moved(c, e, inRun), Claim(claims, Deliver(e), inRun || !AllOpen(c, e)))
  {
    OpenAlike(r, c, claims, e);
    if inRun {
      BothApply(r, c, claims, e);
    } else if AllOpen(c, e) {
      ReplayApplies(r, c, claims, e);
    }
  }

  // Two spends that close an order alike spend the same orders.
  lemma SameSpend(legs: Legs, b: Book, e: Event, claims: Claims, order: OrderId)
    requires WellClaimed(legs, claims) && order in claims && order in SpentBy(e)
    requires e.TradeConfirmedEvent? ==> legs(e.tx) == (e.buy, e.sell)
    requires ClosedBy(b, order, e) && ClosedBy(b, order, claims[order])
    ensures forall p <- SpentBy(e) :: p in claims && claims[p] == claims[order]
    ensures forall p <- SpentBy(e) :: ClosedBy(b, p, e) ==> ClosedBy(b, p, claims[order])
  {
    assert SpentBy(e) == SpentBy(claims[order]);
  }

  // A spend of a claimed order that the run applies is the claim itself or a conflict.
  lemma ClaimedSpendTracks(legs: Legs, r: Book, c: Book, claims: Claims, e: Event, order: OrderId)
    requires Tracks(r, c, claims) && WellClaimed(legs, claims) && IsSpend(e) && order in SpentBy(e) && order in claims
    requires e.TradeConfirmedEvent? ==> legs(e.tx) == (e.buy, e.sell)
    requires AllOpen(c, e)
    ensures Tracks(r, BookStep(c, e), claims) || Conflicts(r, BookStep(c, e), claims)
  {
    SpendStep(c, e);
    var d := BookStep(c, e);
    assert ClosedBy(r, order, claims[order]) && ClosedIn(d, order);
    if ClosedBy(d, order, claims[order]) {
      SameSpend(legs, d, e, claims, order);
      forall o <- claims
        ensures ClosedBy(r, o, claims[o]) && (OpenIn(d, o) || ClosedBy(d, o, claims[o]))
      {
        assert o !in SpentBy(e) ==> d.orders[o] == c.orders[o];
      }
    }
  }

  lemma SpendTracks(legs: Legs, r: Book, c: Book, claims: Claims, e: Event, inRun: bool)
    requires Tracks(r, c, claims) && WellClaimed(legs, claims) && IsSpend(e)
    requires e.TradeConfirmedEvent? ==> legs(e.tx) == (e.buy, e.sell)
    requires inRun ==> AllOpen(c, e)
    ensures var grown := Claim(claims, Deliver(e), inRun || !AllOpen(c, e));
      var r', c' := Moved(r, e, AllOpen(r, e)), Moved(c, e, inRun);
      Tracks(r', c', grown) || Conflicts(r', c', grown)
  {
    if SpentBy(e) !! claims.Keys {
      UnclaimedSpendTracks(r, c, claims, e, inRun);
    } else {
      var order :| order in SpentBy(e) && order in claims;
      assert ClosedBy(r, order, claims[order]) && !AllOpen(r, e);
      if inRun {
        ClaimedSpendTracks(legs, r, c, claims, e, order);
      }
    }
  }

  // What is closed stays as it is until a reorg.
  lemma ClosedStays(legs: Legs, b: Book, e: Event, order: OrderId)
    requires TakesEffect(legs, b, e) && !e.ChainReorgEvent? && ClosedIn(b, order)
    ensures order in BookStep(b, e).orders && BookStep(b, e).orders[order] == b.orders[order]
  {
  }

  lemma ConflictStays(legs: Legs, r: Book, c: Book, claims: Claims, step: Step, lasts: bool, inReplay: bool,
                      inRun: bool)
    requires Conflicts(r, c, claims) && step.Deliver? && !step.event.ChainReorgEvent?
    requires inReplay ==> TakesEffect(legs, r, step.event)
    requires inRun ==> TakesEffect(legs, c, step.event)
    ensures Conflicts(Moved(r, step.event, inReplay), Moved(c, step.event, inRun), Claim(claims, step, lasts))
  {
    var o :| o in claims && ClosedBy(r, o, claims[o]) && ClosedIn(c, o) && !ClosedBy(c, o, claims[o]);
    if inReplay {
      ClosedStays(legs, r, step.event, o);
    }
    if inRun {
      ClosedStays(legs, c, step.event, o);
    }
    assert o in Claim(claims, step, lasts) && Claim(claims, step, lasts)[o] == claims[o];
  }

  lemma CreationTracks(legs: Legs, r: Book, c: Book, claims: Claims, e: Event)
    requires Tracks(r, c, claims) && e.OrderConfirmedEvent? && TakesEffect(legs, c, e)
    ensures Tracks(BookStep(r, e), BookStep(c, e), claims)
  {
    CreationKeepsSame(r, c, e);
  }

  lemma ClaimIsWell(legs: Legs, claims: Claims, e: Event, lasts: bool)
    requires WellClaimed(legs, claims) && (!lasts ==> IsSpend(e))
    requires e.TradeConfirmedEvent? ==> legs(e.tx) == (e.buy, e.sell)
    ensures WellClaimed(legs, Claim(claims, Deliver(e), lasts))
  {
  }

  // The books of the run below the cut and of the replay, a replayed delivery further.
  lemma BothMove(legs: Legs, s: Store, t: Store, e: Event, cut: Cut)
    requires Agreement(legs, s) && Agreement(legs, t) && Delivered(legs, s, e) && Delivered(legs, t, e)
    requires !e.ChainReorgEvent? && Kept(e, cut)
    ensures var inRun, inReplay := ApplyEvent(s, e).Applied?, ApplyEvent(t, e).Applied?;
      && CutBook(BookOf(After(s, ApplyEvent(s, e))), cut) == Moved(CutBook(BookOf(s), cut), e, inRun)
      && BookOf(After(t, ApplyEvent(t, e))) == Moved(BookOf(t), e, inReplay)
      && (inRun ==> TakesEffect(legs, CutBook(BookOf(s), cut), e))
      && (inReplay ==> TakesEffect(legs, BookOf(t), e))
  {
    DeliverMovesBook(legs, s, e);
    DeliverMovesBook(legs, t, e);
    if ApplyEvent(s, e).Applied? {
      CutStep(legs, BookOf(s), e, cut);
    }
  }

  ghost predicate TracksOrConflicts(legs: Legs, r: Book, c: Book, claims: Claims) {
    WellClaimed(legs, claims) && (Tracks(r, c, claims) || Conflicts(r, c, claims))
  }

  lemma TrackedSpend(legs: Legs, before: seq<Step>, t: Store, e: Event, claims: Claims, cut: Cut)
    requires var s := Run(EmptyStore, before);
      && Agreement(legs, s) && Agreement(legs, t) && Delivered(legs, s, e) && Delivered(legs, t, e)
      && WellClaimed(legs, claims) && Tracks(BookOf(t), CutBook(BookOf(s), cut), claims)
    requires IsSpend(e) && Kept(e, cut)
    ensures var s := Run(EmptyStore, before);
      var r', c' := Moved(BookOf(t), e, ApplyEvent(t, e).Applied?),
                    Moved(CutBook(BookOf(s), cut), e, ApplyEvent(s, e).Applied?);
      var grown := Claim(claims, Deliver(e), LastsAt(before + [Deliver(e)], |before|, cut));
      Tracks(r', c', grown) || Conflicts(r', c', grown)
  {
    var s := Run(EmptyStore, before);
    SpendLasts(legs, before, e, cut);
    AppliedIffOpen(legs, t, e);
    SpendTracks(legs, BookOf(t), CutBook(BookOf(s), cut), claims, e, ApplyEvent(s, e).Applied?);
  }

  // Any other delivery that is not a reorg does the same to both.
  lemma TrackedOther(legs: Legs, s: Store, t: Store, e: Event, claims: Claims, cut: Cut)
    requires Agreement(legs, s) && Delivered(legs, s, e) && Delivered(legs, t, e)
    requires Tracks(BookOf(t), CutBook(BookOf(s), cut), claims)
    requires !e.ChainReorgEvent? && !IsSpend(e)
    requires ApplyEvent(s, e).Applied? ==> TakesEffect(legs, CutBook(BookOf(s), cut), e)
    ensures Tracks(Moved(BookOf(t), e, ApplyEvent(t, e).Applied?),
                   Moved(CutBook(BookOf(s), cut), e, ApplyEvent(s, e).Applied?), claims)
  {
    if e.OrderConfirmedEvent? {
      CreationIsApplied(legs, s, e);
      CreationIsApplied(legs, t, e);
      CreationTracks(legs, BookOf(t), CutBook(BookOf(s), cut), claims, e);
    }
  }

  lemma TracksOn(legs: Legs, before: seq<Step>, t: Store, e: Event, claims: Claims, cut: Cut)
    requires var s := Run(EmptyStore, before);
      && Agreement(legs, s) && Agreement(legs, t) && Delivered(legs, s, e) && Delivered(legs, t, e)
      && WellClaimed(legs, claims) && Tracks(BookOf(t), CutBook(BookOf(s), cut), claims)
      && (ApplyEvent(s, e).Applied? ==> TakesEffect(legs, CutBook(BookOf(s), cut), e))
    requires !e.ChainReorgEvent? && Kept(e, cut)
    ensures var s := Run(EmptyStore, before);
      var r', c' := Moved(BookOf(t), e, ApplyEvent(t, e).Applied?),
                    Moved(CutBook(BookOf(s), cut), e, ApplyEvent(s, e).Applied?);
      var grown := Claim(claims, Deliver(e), LastsAt(before + [Deliver(e)], |before|, cut));
      Tracks(r', c', grown) || Conflicts(r', c', grown)
  {
    if IsSpend(e) {
      TrackedSpend(legs, before, t, e, claims, cut);
    } else {
      NotAsked(before, Deliver(e), cut);
      TrackedOther(legs, Run(EmptyStore, before), t, e, claims, cut);
    }
  }

  lemma ClaimedWell(legs: Legs, before: seq<Step>, e: Event, claims: Claims, cut: Cut)
    requires WellClaimed(legs, claims) && Delivered(legs, Run(EmptyStore, before), e)
    requires !e.ChainReorgEvent? && Kept(e, cut)
    ensures WellClaimed(legs, Claim(claims, Deliver(e), LastsAt(before + [Deliver(e)], |before|, cut)))
  {
    if !IsSpend(e) {
      NotAsked(before, Deliver(e), cut);
    }
    ClaimIsWell(legs, claims, e, LastsAt(before + [Deliver(e)], |before|, cut));
  }

  lemma TrackedDelivery(legs: Legs, before: seq<Step>, t: Store, e: Event, claims: Claims, cut: Cut)
    requires var s := Run(EmptyStore, before);
      && Agreement(legs, s) && Agreement(legs, t) && Delivered(legs, s, e) && Delivered(legs, t, e)
      && TracksOrConflicts(legs, BookOf(t), CutBook(BookOf(s), cut), claims)
      && (ApplyEvent(s, e).Applied? ==> TakesEffect(legs, CutBook(BookOf(s), cut), e))
      && (ApplyEvent(t, e).Applied? ==> TakesEffect(legs, BookOf(t), e))
    requires !e.ChainReorgEvent? && Kept(e, cut)
    ensures var s := Run(EmptyStore, before);
      var r', c' := Moved(BookOf(t), e, ApplyEvent(t, e).Applied?),
                    Moved(CutBook(BookOf(s), cut), e, ApplyEvent(s, e).Applied?);
      TracksOrConflicts(legs, r', c', Claim(claims, Deliver(e), LastsAt(before + [Deliver(e)], |before|, cut)))
  {
    ClaimedWell(legs, before, e, claims, cut);
    var r, c := BookOf(t), CutBook(BookOf(Run(EmptyStore, before)), cut);
    if Conflicts(r, c, claims) {
      ConflictStays(legs, r, c, claims, Deliver(e), LastsAt(before + [Deliver(e)], |before|, cut),
                    ApplyEvent(t, e).Applied?, ApplyEvent(Run(EmptyStore, before), e).Applied?);
    } else {
      TracksOn(legs, before, t, e, claims, cut);
    }
  }

  ghost predicate Tracked(legs: Legs, steps: seq<Step>, cut: Cut) {
    TracksOrConflicts(legs, BookOf(Run(EmptyStore, ReplayOf(steps, cut))),
                      CutBook(BookOf(Run(EmptyStore, steps)), cut), ClaimsOf(steps, cut))
  }

  lemma TrackedStep(legs: Legs, before: seq<Step>, last: Step, cut: Cut)
    requires ValidRun(legs, EmptyStore, before) && Allowed(legs, Run(EmptyStore, before), last)
    requires Tracked(legs, before, CutBefore(last, cut))
    ensures Tracked(legs, before + [last], cut)
  {
    var s, t := Run(EmptyStore, before), Run(EmptyStore, ReplayOf(before, CutBefore(last, cut)));
    ReplayIsValid(legs, before, CutBefore(last, cut));
    RunAgrees(legs, before);
    RunAgrees(legs, ReplayOf(before, CutBefore(last, cut)));
    ReplayRunSnoc(legs, before, last, cut);
    ClaimsSnoc(before, last, cut);
    if Replayed(last, cut) {
      FollowsDelivery(legs, s, t, last.event, cut);
      BothMove(legs, s, t, last.event, cut);
      TrackedDelivery(legs, before, t, last.event, ClaimsOf(before, cut), cut);
    } else {
      NotAsked(before, last, cut);
      UnreplayedStep(legs, s, last, cut);
    }
  }

  lemma {:induction false} ReplayIsTracked(legs: Legs, steps: seq<Step>, cut: Cut)
    requires ValidRun(legs, EmptyStore, steps)
    ensures Tracked(legs, steps, cut)
    decreases |steps|
  {
    if steps == [] {
      EmptyReplay(cut);
    } else {
      var before, last := SplitRun(legs, steps);
      ReplayIsTracked(legs, before, CutBefore(last, cut));
      TrackedStep(legs, before, last, cut);
    }
  }

  // ---- Equal books ----

  // A trade that the book shows is the one its legs name.
  lemma TradeInBook(legs: Legs, s: Store, tx: TxHash, cut: Cut)
    requires Agreement(legs, s)
    ensures var b := CutBook(BookOf(s), cut);
      var buy := legs(tx).0;
      tx in b.trades <==>
        buy in b.orders && b.orders[buy].Closed? && b.orders[buy].filled && b.orders[buy].spender == tx
    ensures var b := CutBook(BookOf(s), cut);
      tx in b.trades ==> b.trades[tx] == (legs(tx).0, legs(tx).1, b.orders[legs(tx).0].at)
  {
    if tx in s.trades {
      assert TradeAgrees(legs, s, tx);
    }
    if legs(tx).0 in s.orders {
      assert OrderAgrees(s, legs(tx).0);
    }
  }

  lemma TradeDecided(legs: Legs, s: Store, t: Store, tx: TxHash, cut: Cut)
    requires Agreement(legs, s) && Agreement(legs, t) && BookOf(t).orders == CutBook(BookOf(s), cut).orders
    ensures tx in BookOf(t).trades <==> tx in CutBook(BookOf(s), cut).trades
    ensures tx in BookOf(t).trades ==> BookOf(t).trades[tx] == CutBook(BookOf(s), cut).trades[tx]
  {
    assert CutBook(BookOf(t), None) == BookOf(t);
    TradeInBook(legs, t, tx, None);
    TradeInBook(legs, s, tx, cut);
  }

  lemma SameMap<K, V>(m: map<K, V>, n: map<K, V>)
    requires forall k :: k in m || k in n ==> k in m && k in n && m[k] == n[k]
    ensures m == n
  {
  }

  // In agreeing collections the orders determine the trades.
  lemma OrdersDecide(legs: Legs, s: Store, t: Store, cut: Cut)
    requires Agreement(legs, s) && Agreement(legs, t) && BookOf(t).orders == CutBook(BookOf(s), cut).orders
    ensures BookOf(t) == CutBook(BookOf(s), cut)
  {
    var m, n := BookOf(t).trades, CutBook(BookOf(s), cut).trades;
    forall tx | tx in m || tx in n
      ensures tx in m && tx in n && m[tx] == n[tx]
    {
      TradeDecided(legs, s, t, tx, cut);
    }
    SameMap(m, n);
  }

  ghost predicate ClaimsHold(c: Book, claims: Claims) {
    forall o <- claims :: ClosedBy(c, o, claims[o])
  }

  lemma EqualIffClaimsHold(legs: Legs, r: Book, c: Book, claims: Claims)
    requires TracksOrConflicts(legs, r, c, claims)
    ensures r.orders == c.orders <==> ClaimsHold(c, claims)
  {
    if Tracks(r, c, claims) && ClaimsHold(c, claims) {
      forall o <- r.orders
        ensures r.orders[o] == c.orders[o]
      {
        if o in claims {
          assert ClosedBy(r, o, claims[o]) && ClosedBy(c, o, claims[o]);
        }
      }
    }
  }

  lemma ClaimsHoldIffHealed(steps: seq<Step>, cut: Cut)
    ensures ClaimsHold(CutBook(BookOf(Run(EmptyStore, steps)), cut), ClaimsOf(steps, cut)) <==> AllHealed(steps, cut)
  {
    var c, claims := CutBook(BookOf(Run(EmptyStore, steps)), cut), ClaimsOf(steps, cut);
    if AllHealed(steps, cut) {
      forall o <- claims
        ensures ClosedBy(c, o, claims[o])
      {
        var k := ClaimIsEffective(steps, o, cut);
        assert Healed(steps, k, cut);
      }
    } else {
      var k: nat :| k < |steps| && !Healed(steps, k, cut);
      var o :| o in OrdersOf(steps[k]) && !ClosedBy(c, o, steps[k].event);
      EffectiveClaims(steps, k, o, cut);
    }
  }

  lemma MirrorsIffHealed(legs: Legs, steps: seq<Step>, cut: Cut)
    requires ValidRun(legs, EmptyStore, steps)
    ensures Mirrors(steps, cut) <==> AllHealed(steps, cut)
  {
    ReplayIsValid(legs, steps, cut);
    RunAgrees(legs, steps);
    RunAgrees(legs, ReplayOf(steps, cut));
    ReplayIsTracked(legs, steps, cut);
    var s, t := Run(EmptyStore, steps), Run(EmptyStore, ReplayOf(steps, cut));
    EqualIffClaimsHold(legs, BookOf(t), CutBook(BookOf(s), cut), ClaimsOf(steps, cut));
    ClaimsHoldIffHealed(steps, cut);
    if BookOf(t).orders == CutBook(BookOf(s), cut).orders {
      OrdersDecide(legs, s, t, cut);
    }
  }

  // ---- When the replay gives the run's answers ----

  // Step by step: each delivery that is replayed is applied by the replay exactly when the run applied it.
  ghost predicate AnswersAgree(steps: seq<Step>, cut: Cut)
    decreases |steps|
  {
    steps == [] ||
    var before, last := steps[..|steps| - 1], steps[|steps| - 1];
    && AnswersAgree(before, CutBefore(last, cut))
    && SameAnswer(before, last, cut)
  }

  ghost predicate SameAnswer(before: seq<Step>, last: Step, cut: Cut) {
    Replayed(last, cut) && IsSpend(last.event) ==>
      (ApplyEvent(Run(EmptyStore, ReplayOf(before, cut)), last.event).Applied?
       <==> ApplyEvent(Run(EmptyStore, before), last.event).Applied?)
  }

  // With equal books so far, the replay answers as the run did exactly when a refusal lasts.
  lemma SameAnswerIffLasts(legs: Legs, before: seq<Step>, last: Step, cut: Cut)
    requires ValidRun(legs, EmptyStore, before) && Allowed(legs, Run(EmptyStore, before), last)
    requires Mirrors(before, CutBefore(last, cut))
    ensures SameAnswer(before, last, cut) <==> LastsAt(before + [last], |before|, cut)
  {
    if Replayed(last, cut) && IsSpend(last.event) {
      var s, t := Run(EmptyStore, before), Run(EmptyStore, ReplayOf(before, cut));
      ReplayIsValid(legs, before, cut);
      RunAgrees(legs, before);
      RunAgrees(legs, ReplayOf(before, cut));
      FollowsDelivery(legs, s, t, last.event, cut);
      SpendLasts(legs, before, last.event, cut);
      AppliedIffOpen(legs, t, last.event);
    } else {
      NotAsked(before, last, cut);
    }
  }

  // Lasting refusals leave nothing to heal.
  lemma LastingIsHealed(steps: seq<Step>, cut: Cut)
    requires RefusalsLast(steps, cut)
    ensures AllHealed(steps, cut)
  {
    forall k: nat | k < |steps|
      ensures Healed(steps, k, cut)
    {
      assert LastsAt(steps, k, cut);
    }
  }

  lemma {:induction false} AnswersAgreeIffRefusalsLast(legs: Legs, steps: seq<Step>, cut: Cut)
    requires ValidRun(legs, EmptyStore, steps)
    ensures AnswersAgree(steps, cut) <==> RefusalsLast(steps, cut)
    decreases |steps|
  {
    if steps != [] {
      var before, last := SplitRun(legs, steps);
      AnswersAgreeIffRefusalsLast(legs, before, CutBefore(last, cut));
      RefusalsSnoc(before, last, cut);
      if RefusalsLast(before, CutBefore(last, cut)) {
        LastingIsHealed(before, CutBefore(last, cut));
        MirrorsIffHealed(legs, before, CutBefore(last, cut));
        SameAnswerIffLasts(legs, before, last, cut);
      }
    }
  }

  // Rollback equals replay, refused deliveries included. Replaying every delivery that no later reorg rolled
  // back is a valid run. It shows what the run shows if and only if all that an effective refused spend would
  // have done, the run has done by its end. It also answers every delivery as the run did if and only if no
  // refusal but a lasting one stands, and then there is nothing to heal.
  lemma RollbackEqualsReplayOfDeliveries(legs: Legs, steps: seq<Step>)
    requires ValidRun(legs, EmptyStore, steps)
    ensures var replay := Deliveries(Survivors(DeliveredLog(steps)));
      && ValidRun(legs, EmptyStore, replay)
      && (BookOf(Run(EmptyStore, replay)) == BookOf(Run(EmptyStore, steps)) <==> AllHealed(steps, None))
      && (AnswersAgree(steps, None) <==> RefusalsLast(steps, None))
      && (RefusalsLast(steps, None) ==> AllHealed(steps, None))
  {
    ReplayIsValid(legs, steps, None);
    MirrorsIffHealed(legs, steps, None);
    AnswersAgreeIffRefusalsLast(legs, steps, None);
    if RefusalsLast(steps, None) {
      LastingIsHealed(steps, None);
    }
  }

  // ---- Redelivery heals ----

  // An order closed below the cut stays closed alike through every step.
  lemma ClosedStaysBelow(legs: Legs, s: Store, step: Step, order: OrderId, e: Event, cut: Cut)
    requires Agreement(legs, s) && Allowed(legs, s, step)
    requires ClosedBy(CutBook(BookOf(s), CutBefore(step, cut)), order, e)
    ensures ClosedBy(CutBook(BookOf(Next(s, step)), cut), order, e)
  {
    if Replayed(step, cut) {
      DeliverMovesBook(legs, s, step.event);
      if ApplyEvent(s, step.event).Applied? {
        CutStep(legs, BookOf(s), step.event, cut);
        ClosedStays(legs, CutBook(BookOf(s), cut), step.event, order);
      }
    } else {
      UnreplayedStep(legs, s, step, cut);
    }
  }

  lemma SpendClosesBelow(legs: Legs, s: Store, e: Event, order: OrderId, cut: Cut)
    requires Agreement(legs, s) && Delivered(legs, s, e) && IsSpend(e) && Kept(e, cut) && ApplyEvent(s, e).Applied?
    requires order in SpentBy(e)
    ensures ClosedBy(CutBook(BookOf(After(s, ApplyEvent(s, e))), cut), order, e)
  {
    DeliverMovesBook(legs, s, e);
    CutStep(legs, BookOf(s), e, cut);
    SpendStep(CutBook(BookOf(s), cut), e);
  }

  // An applied spend whose block stands has its orders closed at the end of the run.
  lemma {:induction false} AppliedSpendStays(legs: Legs, steps: seq<Step>, j: nat, order: OrderId, cut: Cut)
    requires ValidRun(legs, EmptyStore, steps) && j < |steps| && AppliedAt(steps, j) && IsSpend(steps[j].event)
    requires Stands(steps, j, BlockOf(steps[j].event).value, cut) && order in SpentBy(steps[j].event)
    ensures ClosedBy(CutBook(BookOf(Run(EmptyStore, steps)), cut), order, steps[j].event)
    decreases |steps|
  {
    var before, last := SplitRun(legs, steps);
    RunAgrees(legs, before);
    RunSnoc(legs, EmptyStore, before, last);
    if j == |before| {
      assert steps[..j] == before;
      SpendClosesBelow(legs, Run(EmptyStore, before), last.event, order, cut);
    } else {
      assert steps[..j] == before[..j] && steps[j] == before[j];
      StandsSnoc(before, last, j, BlockOf(before[j].event).value, cut);
      AppliedSpendStays(legs, before, j, order, CutBefore(last, cut));
      ClosedStaysBelow(legs, Run(EmptyStore, before), last, order, steps[j].event, cut);
    }
  }

  // Delivered again later, and then applied.
  ghost predicate Redelivered(steps: seq<Step>, k: nat)
    requires k < |steps|
  {
    exists j: nat :: k < j < |steps| && steps[j] == steps[k] && AppliedAt(steps, j)
  }

  // Ordinary recovery: when every effective refused spend is delivered again and applied, the replay shows
  // what the run shows.
  lemma RedeliveryHeals(legs: Legs, steps: seq<Step>)
    requires ValidRun(legs, EmptyStore, steps)
    requires forall k: nat :: k < |steps| && Effective(steps, k, None) ==> Redelivered(steps, k)
    ensures BookOf(Run(EmptyStore, Deliveries(Survivors(DeliveredLog(steps))))) == BookOf(Run(EmptyStore, steps))
  {
    forall k: nat, order | k < |steps| && Effective(steps, k, None) && order in OrdersOf(steps[k])
      ensures ClosedBy(BookOf(Run(EmptyStore, steps)), order, steps[k].event)
    {
      var j: nat :| k < j < |steps| && steps[j] == steps[k] && AppliedAt(steps, j);
      AppliedSpendStays(legs, steps, j, order, None);
    }
    RollbackEqualsReplayOfDeliveries(legs, steps);
  }

  // ---- When it does not ----

  ghost predicate ClosesOne(steps: seq<Step>, e: Event, cut: Cut) {
    exists order :: order in SpentBy(e) && ClosedIn(BookOf(Run(EmptyStore, ReplayOf(steps, cut))), order)
  }

  // All orders of a spend are known when it is delivered, and its own block stands.
  ghost predicate KnownSpend(steps: seq<Step>, k: nat, cut: Cut)
    requires k < |steps|
  {
    && steps[k].Deliver? && IsSpend(steps[k].event) && Stands(steps, k, BlockOf(steps[k].event).value, cut)
    && (steps[k].event.TradeConfirmedEvent? ==> steps[k].event.buy != steps[k].event.sell)
    && forall order :: order in SpentBy(steps[k].event) ==> order in Run(EmptyStore, steps[..k]).orders
  }

  lemma KnownSpendSnoc(before: seq<Step>, last: Step, k: nat, cut: Cut)
    requires k < |before| && KnownSpend(before + [last], k, cut)
    ensures KnownSpend(before, k, CutBefore(last, cut))
  {
    var steps := before + [last];
    assert steps[..k] == before[..k] && steps[k] == before[k];
    StandsSnoc(before, last, k, BlockOf(before[k].event).value, cut);
  }

  // After a replayed spend of known orders one of them is closed, by it or by an earlier spend.
  lemma SpendCloses(legs: Legs, s: Store, t: Store, e: Event, cut: Cut) returns (order: OrderId)
    requires Agreement(legs, t) && Delivered(legs, s, e) && Delivered(legs, t, e)
    requires IsSpend(e) && Kept(e, cut) && (e.TradeConfirmedEvent? ==> e.buy != e.sell)
    requires forall o :: o in SpentBy(e) ==> o in s.orders
    requires Follows(t, BookOf(s), cut)
    ensures order in SpentBy(e) && ClosedIn(BookOf(After(t, ApplyEvent(t, e))), order)
  {
    forall o | o in SpentBy(e)
      ensures o in BookOf(t).orders
    {
      assert Present(s, o) && s.orders[o].blockNumber <= BlockOf(e).value;
      assert o in CutBook(BookOf(s), cut).orders;
    }
    AppliedIffOpen(legs, t, e);
    DeliverMovesBook(legs, t, e);
    order := match e
      case OrderCancelledEvent(_, o, _, _, _) => o
      case TradeConfirmedEvent(_, buy, sell, _, _, _) => if OpenIn(BookOf(t), buy) then sell else buy;
  }

  lemma ClosedStaysClosed(legs: Legs, t: Store, step: Step, order: OrderId)
    requires Agreement(legs, t) && Allowed(legs, t, step) && !IsReorg(step) && ClosedIn(BookOf(t), order)
    ensures ClosedIn(BookOf(Next(t, step)), order)
  {
    assert OrderAgrees(t, order);
    ClosedUntilReorg(legs, t, step, order);
  }

  lemma {:induction false} KnownSpendCloses(legs: Legs, steps: seq<Step>, k: nat, cut: Cut)
    requires ValidRun(legs, EmptyStore, steps) && k < |steps| && KnownSpend(steps, k, cut)
    ensures ClosesOne(steps, steps[k].event, cut)
    decreases |steps|
  {
    var before, last := SplitRun(legs, steps);
    var earlier := CutBefore(last, cut);
    var s, t := Run(EmptyStore, before), Run(EmptyStore, ReplayOf(before, earlier));
    ReplayIsValid(legs, before, earlier);
    ReplayIsValid(legs, steps, cut);
    RunAgrees(legs, ReplayOf(before, earlier));
    ReplayRunSnoc(legs, before, last, cut);
    if k == |before| {
      assert steps[..k] == before;
      ReplayMayDeliver(legs, s, t, last.event, cut);
      var order := SpendCloses(legs, s, t, last.event, cut);
    } else {
      KnownSpendSnoc(before, last, k, cut);
      KnownSpendCloses(legs, before, k, earlier);
      var order :| order in SpentBy(before[k].event) && ClosedIn(BookOf(t), order);
      if Replayed(last, cut) {
        ClosedStaysClosed(legs, t, last, order);
      }
    }
  }

  // Conversely, an effective refused spend whose order ends open, or closed in any other way, comes back: the
  // replay shows something else.
  lemma RefusedSpendComesBack(legs: Legs, steps: seq<Step>, k: nat, order: OrderId)
    requires ValidRun(legs, EmptyStore, steps) && k < |steps| && Effective(steps, k, None)
    requires order in OrdersOf(steps[k]) && !ClosedBy(BookOf(Run(EmptyStore, steps)), order, steps[k].event)
    ensures BookOf(Run(EmptyStore, Deliveries(Survivors(DeliveredLog(steps))))) != BookOf(Run(EmptyStore, steps))
    ensures !RefusalsLast(steps, None)
  {
    assert !Healed(steps, k, None);
    RollbackEqualsReplayOfDeliveries(legs, steps);
  }

  // So does any spend of known orders whose block stands, when the run ends with none of its orders closed.
  lemma OpenSpendComesBack(legs: Legs, steps: seq<Step>, k: nat)
    requires ValidRun(legs, EmptyStore, steps) && k < |steps| && KnownSpend(steps, k, None)
    requires forall order :: order in SpentBy(steps[k].event) ==> !ClosedIn(BookOf(Run(EmptyStore, steps)), order)
    ensures BookOf(Run(EmptyStore, Deliveries(Survivors(DeliveredLog(steps))))) != BookOf(Run(EmptyStore, steps))
    ensures !RefusalsLast(steps, None)
  {
    KnownSpendCloses(legs, steps, k, None);
    RollbackEqualsReplayOfDeliveries(legs, steps);
  }

  // An order of block 1, a cancellation in block 10, one in block 5, and a rollback to block 7.
  function Created(order: OrderId, doc: OrderDoc): Event {
    OrderConfirmedEvent("created", order, 1, "a", doc)
  }

  function CancelledAt(order: OrderId, block: nat, tx: TxHash): Event {
    OrderCancelledEvent(tx, order, block, "b", tx)
  }

  const BackTo7 := ChainReorgEvent("reorg", 10, "b", Some(7))

  lemma CreatedThenCancelled(legs: Legs, order: OrderId, doc: OrderDoc, block: nat, tx: TxHash)
    requires block >= 1
    ensures var steps := [Deliver(Created(order, doc)), Deliver(CancelledAt(order, block, tx))];
      var o := Order(doc, Canceled, 1, "a", block, Some(block), Some("b"), Some(tx), None, None, tx);
      ValidRun(legs, EmptyStore, steps) && Run(EmptyStore, steps) == Store(map[order := o], map[])
  {
    var first, second := Deliver(Created(order, doc)), Deliver(CancelledAt(order, block, tx));
    RunSnoc(legs, EmptyStore, [], first);
    RunSnoc(legs, EmptyStore, [first], second);
    assert [] + [first] == [first] && [first] + [second] == [first, second];
  }

  lemma RefusedThenRolledBack(legs: Legs, order: OrderId, doc: OrderDoc)
    ensures var steps := [Deliver(Created(order, doc)), Deliver(CancelledAt(order, 10, "late")),
                          Deliver(CancelledAt(order, 5, "early")), Deliver(BackTo7)];
      ValidRun(legs, EmptyStore, steps) && BookOf(Run(EmptyStore, steps)) == Book(map[order := Open(1, "a")], map[])
  {
    var two := [Deliver(Created(order, doc)), Deliver(CancelledAt(order, 10, "late"))];
    CreatedThenCancelled(legs, order, doc, 10, "late");
    RunSnoc(legs, EmptyStore, two, Deliver(CancelledAt(order, 5, "early")));
    var three := two + [Deliver(CancelledAt(order, 5, "early"))];
    RunSnoc(legs, EmptyStore, three, Deliver(BackTo7));
    assert three + [Deliver(BackTo7)] ==
      [Deliver(Created(order, doc)), Deliver(CancelledAt(order, 10, "late")),
       Deliver(CancelledAt(order, 5, "early")), Deliver(BackTo7)];
  }

  // A run that shows something else than its replay. One cell is spent in blocks 5 and 10 while block 7 is
  // kept, so it takes two fork switches: from the fork with the spend in block 10 to one with the spend in
  // block 5, unnoticed by the bot, and on to one that shares block 7 with the first.
  lemma RefusedEventComesBack(legs: Legs, order: OrderId, doc: OrderDoc) returns (steps: seq<Step>)
    ensures ValidRun(legs, EmptyStore, steps)
    ensures var replay := Deliveries(Survivors(DeliveredLog(steps)));
      ValidRun(legs, EmptyStore, replay) && BookOf(Run(EmptyStore, steps)) != BookOf(Run(EmptyStore, replay))
  {
    var two := [Deliver(Created(order, doc)), Deliver(CancelledAt(order, 10, "late"))];
    steps := two + [Deliver(CancelledAt(order, 5, "early")), Deliver(BackTo7)];
    CreatedThenCancelled(legs, order, doc, 10, "late");
    RefusedThenRolledBack(legs, order, doc);
    assert steps == [Deliver(Created(order, doc)), Deliver(CancelledAt(order, 10, "late")),
                     Deliver(CancelledAt(order, 5, "early")), Deliver(BackTo7)];
    assert steps[..2] == two && steps[2] == Deliver(CancelledAt(order, 5, "early")) && steps[3] == Deliver(BackTo7);
    assert KnownSpend(steps, 2, None);
    OpenSpendComesBack(legs, steps, 2);
    ReplayIsValid(legs, steps, None);
  }

  lemma ListedIsPresent(s: Store, order: OrderId)
    requires order in BookOf(s).orders
    ensures Present(s, order) && BookOf(s).orders[order].block == s.orders[order].blockNumber
  {
  }

  // From a book that shows the order open, it can be cancelled.
  lemma CancelsOpen(legs: Legs, s: Store, order: OrderId, block: nat, tx: TxHash)
    requires Agreement(legs, s) && OpenBy(BookOf(s), order, block)
    ensures Delivered(legs, s, CancelledAt(order, block, tx)) && ApplyEvent(s, CancelledAt(order, block, tx)).Applied?
  {
    ListedIsPresent(s, order);
    AppliedIffOpen(legs, s, CancelledAt(order, block, tx));
  }

  lemma FirstTwoApplied(legs: Legs, order: OrderId, doc: OrderDoc, steps: seq<Step>)
    requires |steps| > 1 && steps[..2] == [Deliver(Created(order, doc)), Deliver(CancelledAt(order, 10, "late"))]
    ensures AppliedAt(steps, 0) && AppliedAt(steps, 1)
  {
    var first := Deliver(Created(order, doc));
    RunSnoc(legs, EmptyStore, [], first);
    assert steps[..1] == steps[..2][..1] == [first] == [] + [first] && steps[1] == steps[..2][1];
    assert steps[..0] == [] && steps[0] == steps[..2][0];
  }

  lemma EarlyIsRefused(legs: Legs, order: OrderId, doc: OrderDoc, steps: seq<Step>)
    requires |steps| == 5 && steps[2] == Deliver(CancelledAt(order, 5, "early")) && steps[3] == Deliver(BackTo7)
    requires steps[..2] == [Deliver(Created(order, doc)), Deliver(CancelledAt(order, 10, "late"))] && !IsReorg(steps[4])
    ensures !LastsAt(steps, 2, None)
  {
    CreatedThenCancelled(legs, order, doc, 10, "late");
    RefusalByLegs(steps, 2, None);
    assert !Stands(steps, 2, 10, None);
  }

  lemma AppliedIsNotEffective(steps: seq<Step>, k: nat, cut: Cut)
    requires k < |steps| && (AppliedAt(steps, k) || IsReorg(steps[k]))
    ensures !Effective(steps, k, cut)
  {
    assert !Refused(steps, k);
    assert LastsAt(steps, k, cut);
  }

  lemma OnlyThird(steps: seq<Step>, k: nat)
    requires |steps| == 5 && AppliedAt(steps, 0) && AppliedAt(steps, 1) && IsReorg(steps[3]) && AppliedAt(steps, 4)
    requires k < 5 && k != 2
    ensures !Effective(steps, k, None)
  {
    AppliedIsNotEffective(steps, k, None);
  }

  lemma FifthIsRedelivery(steps: seq<Step>, k: nat)
    requires |steps| == 5 && AppliedAt(steps, 0) && AppliedAt(steps, 1) && IsReorg(steps[3]) && AppliedAt(steps, 4)
    requires steps[2] == steps[4] && k < 5 && Effective(steps, k, None)
    ensures Redelivered(steps, k)
  {
    if k != 2 {
      OnlyThird(steps, k);
    }
  }

  // The same run with the refused cancellation delivered once more: the refusal did not last, and yet the
  // replay shows what the run shows.
  lemma RedeliveredAfterRollback(legs: Legs, order: OrderId, doc: OrderDoc) returns (steps: seq<Step>)
    ensures ValidRun(legs, EmptyStore, steps) && !RefusalsLast(steps, None)
    ensures BookOf(Run(EmptyStore, Deliveries(Survivors(DeliveredLog(steps))))) == BookOf(Run(EmptyStore, steps))
  {
    var early := Deliver(CancelledAt(order, 5, "early"));
    var two := [Deliver(Created(order, doc)), Deliver(CancelledAt(order, 10, "late"))];
    var four := [two[0], two[1], early, Deliver(BackTo7)];
    steps := four + [early];
    RefusedThenRolledBack(legs, order, doc);
    RunSnoc(legs, EmptyStore, four, early);
    RunAgrees(legs, four);
    CancelsOpen(legs, Run(EmptyStore, four), order, 5, "early");
    assert steps[..4] == four && steps[..2] == two;
    EarlyIsRefused(legs, order, doc, steps);
    FirstTwoApplied(legs, order, doc, steps);
    forall k: nat | k < 5 && Effective(steps, k, None)
      ensures Redelivered(steps, k)
    {
      FifthIsRedelivery(steps, k);
    }
    RedeliveryHeals(legs, steps);
  }
}
