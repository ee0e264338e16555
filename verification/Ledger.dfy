// Runs of the ledger: what the order lock guarantees to every maker over any chain of transactions.
module Ledger {
  import opened Bytes
  import opened Cells
  import opened Sums
  import opened OrderArgs
  import opened OrderLock

  // A cell is named by the transaction that created it and its output position.
  datatype OutPoint = OutPoint(tx: nat, index: nat)

  datatype RawTx = RawTx(inputs: seq<OutPoint>, outputs: seq<Cell>)

  // The live cells; every transaction so far has a number below `next`.
  datatype State = State(live: map<OutPoint, Cell>, next: nat)

  ghost predicate WellFormed(s: State) {
    forall p <- s.live :: p.tx < s.next
  }

  predicate Spendable(s: State, tx: RawTx) {
    && (forall i :: 0 <= i < |tx.inputs| ==> tx.inputs[i] in s.live)
    && (forall i, j :: 0 <= i < j < |tx.inputs| ==> tx.inputs[i] != tx.inputs[j])
  }

  function Resolve(s: State, tx: RawTx): Tx
    requires Spendable(s, tx)
  {
    Tx(seq(|tx.inputs|, i requires 0 <= i < |tx.inputs| => s.live[tx.inputs[i]]), tx.outputs)
  }

  // Other scripts may refuse more; the guarantees need only the order lock's own verdicts.
  ghost predicate Admits(hash: Hasher, dex: ScriptId, s: State, tx: RawTx) {
    Spendable(s, tx) && AllGroupsAccept(hash, dex, Resolve(s, tx))
  }

  function Apply(s: State, tx: RawTx): State {
    State((s.live - (set p | p in tx.inputs))
          + (map j | 0 <= j < |tx.outputs| :: OutPoint(s.next, j) := tx.outputs[j]),
          s.next + 1)
  }

  // After a transaction exactly the cells it spent are gone and exactly its outputs are new.
  lemma ApplyEffect(s: State, tx: RawTx, p: OutPoint)
    requires WellFormed(s)
    ensures var t := Apply(s, tx);
      && (p in t.live <==> (p in s.live && p !in tx.inputs) || (p.tx == s.next && p.index < |tx.outputs|))
      && (p in t.live ==> t.live[p] == if p.tx == s.next then tx.outputs[p.index] else s.live[p])
  {
  }

  ghost predicate ValidRun(hash: Hasher, dex: ScriptId, s: State, run: seq<RawTx>)
    decreases run
  {
    run == [] || (Admits(hash, dex, s, run[0]) && ValidRun(hash, dex, Apply(s, run[0]), run[1..]))
  }

  function StateAt(s: State, run: seq<RawTx>, k: nat): State
    requires k <= |run|
    decreases k
  {
    if k == 0 then s else StateAt(Apply(s, run[0]), run[1..], k - 1)
  }

  lemma {:induction false} RunPoint(hash: Hasher, dex: ScriptId, s: State, run: seq<RawTx>, k: nat)
    requires WellFormed(s) && ValidRun(hash, dex, s, run) && k <= |run|
    ensures var t := StateAt(s, run, k);
      WellFormed(t) && t.next == s.next + k && (k < |run| ==> Admits(hash, dex, t, run[k]))
    decreases k
  {
    if k > 0 {
      RunPoint(hash, dex, Apply(s, run[0]), run[1..], k - 1);
    }
  }

  // The k-th transaction of a run, with its inputs resolved.
  ghost function TxAt(hash: Hasher, dex: ScriptId, s: State, run: seq<RawTx>, k: nat): Tx
    requires WellFormed(s) && ValidRun(hash, dex, s, run) && k < |run|
  {
    RunPoint(hash, dex, s, run, k);
    Resolve(StateAt(s, run, k), run[k])
  }

  // ---- What one accepted transaction owes and pays ----

  predicate Refunds(hash: Hasher, order: Cell, outputs: seq<Cell>, j: nat) {
    j < |outputs| && ParseOrderArgs(order.lock.args).Ok?
    && IsRefund(hash, order, ParseOrderArgs(order.lock.args).value, outputs[j])
  }

  // The outputs that count for the order consumed at input i: one refund for a cancellation,
  // plain cells for a filled sell, token cells for a filled buy.
  ghost function Counted(hash: Hasher, dex: ScriptId, tx: Tx, i: nat): set<nat>
    requires i < |tx.inputs|
  {
    match ParseOrderArgs(tx.inputs[i].lock.args)
    case Err(_) => {}
    case Ok(t) =>
      if |DexIndices(dex, tx.inputs)| == 1 then
        set j | 0 <= j < |tx.outputs| && Refunds(hash, tx.inputs[i], tx.outputs, j)
                && forall h :: 0 <= h < j ==> !Refunds(hash, tx.inputs[i], tx.outputs, h)
      else if t.side == Sell then set j | 0 <= j < |tx.outputs| && IsPlainFor(hash, t.maker, tx.outputs[j])
      else set j | 0 <= j < |tx.outputs| && IsTokenFor(hash, t, tx.outputs[j])
  }

  ghost function CapacityAt(outputs: seq<Cell>, counted: set<nat>): int {
    if outputs == [] then 0
    else
      var n := |outputs| - 1;
      CapacityAt(outputs[..n], counted) + if n in counted then outputs[n].capacity else 0
  }

  ghost function TokensAt(outputs: seq<Cell>, counted: set<nat>): int {
    if outputs == [] then 0
    else
      var n := |outputs| - 1;
      TokensAt(outputs[..n], counted) + if n in counted then Amount(outputs[n].data) else 0
  }

  // What an order's maker is entitled to in CKB when the order leaves the ledger in tx.
  function Due(dex: ScriptId, tx: Tx, i: nat, t: Terms): int
    requires i < |tx.inputs|
  {
    if |DexIndices(dex, tx.inputs)| == 1 then tx.inputs[i].capacity
    else if t.side == Sell then tx.inputs[i].capacity + t.price
    else tx.inputs[i].capacity - t.price - MAX_SETTLEMENT_FEE
  }

  lemma {:induction false} CapacityAtIs(outputs: seq<Cell>, counted: set<nat>, f: Cell -> int)
    requires forall j :: 0 <= j < |outputs| ==> f(outputs[j]) == if j in counted then outputs[j].capacity else 0
    ensures CapacityAt(outputs, counted) == Sum(outputs, f)
  {
    if outputs != [] {
      CapacityAtIs(outputs[..|outputs| - 1], counted, f);
    }
  }

  lemma {:induction false} TokensAtIs(outputs: seq<Cell>, counted: set<nat>, f: Cell -> int)
    requires forall j :: 0 <= j < |outputs| ==> f(outputs[j]) == if j in counted then Amount(outputs[j].data) else 0
    ensures TokensAt(outputs, counted) == Sum(outputs, f)
  {
    if outputs != [] {
      TokensAtIs(outputs[..|outputs| - 1], counted, f);
    }
  }

  lemma {:induction false} CapacityAtLeast(outputs: seq<Cell>, counted: set<nat>, j: nat)
    requires j < |outputs| && j in counted
    ensures CapacityAt(outputs, counted) >= outputs[j].capacity
  {
    if j < |outputs| - 1 {
      CapacityAtLeast(outputs[..|outputs| - 1], counted, j);
    } else {
      CapacityAtNonNegative(outputs[..j], counted);
    }
  }

  lemma {:induction false} CapacityAtNonNegative(outputs: seq<Cell>, counted: set<nat>)
    ensures CapacityAt(outputs, counted) >= 0
  {
    if outputs != [] {
      CapacityAtNonNegative(outputs[..|outputs| - 1], counted);
    }
  }

  lemma FirstRefund(hash: Hasher, order: Cell, outputs: seq<Cell>, j: nat) returns (f: nat)
    requires Refunds(hash, order, outputs, j)
    ensures Refunds(hash, order, outputs, f) && forall h :: 0 <= h < f ==> !Refunds(hash, order, outputs, h)
    decreases j
  {
    if h :| 0 <= h < j && Refunds(hash, order, outputs, h) {
      f := FirstRefund(hash, order, outputs, h);
    } else {
      f := j;
    }
  }

  ghost predicate SingleRefund(hash: Hasher, tx: Tx, i: nat, counted: set<nat>)
    requires i < |tx.inputs|
  {
    exists j | 0 <= j < |tx.outputs| ::
      counted == {j} && tx.outputs[j].data == tx.inputs[i].data
      && TypeHash(hash, tx.outputs[j]) == TypeHash(hash, tx.inputs[i])
  }

  // An order cell that leaves the ledger carries readable terms, and what its maker is due is paid
  // by the outputs counted for it: all under the maker's lock, the right kind of cell, in the right sum.
  ghost predicate Honoured(hash: Hasher, dex: ScriptId, tx: Tx, i: nat)
    requires i < |tx.inputs|
  {
    match ParseOrderArgs(tx.inputs[i].lock.args)
    case Err(_) => false
    case Ok(t) =>
      var counted := Counted(hash, dex, tx, i);
      var cancelled := |DexIndices(dex, tx.inputs)| == 1;
      && (forall j :: j in counted ==> j < |tx.outputs| && hash(tx.outputs[j].lock) == t.maker)
      && CapacityAt(tx.outputs, counted) >= Due(dex, tx, i, t)
      && (cancelled ==> MakerPresent(hash, tx, t.maker) && SingleRefund(hash, tx, i, counted))
      && (!cancelled && t.side == Sell ==> forall j :: j in counted ==> tx.outputs[j].typ.None?)
      && (!cancelled && t.side == Buy ==>
            TokensAt(tx.outputs, counted) == t.amount
            && forall j :: j in counted ==> TypeHash(hash, tx.outputs[j]) == Some(t.asset))
  }

  lemma CancelHonoured(hash: Hasher, dex: ScriptId, tx: Tx, i: nat)
    requires i < |tx.inputs| && DexIndices(dex, tx.inputs) == [i] && Cancels(hash, tx, i)
    ensures Honoured(hash, dex, tx, i)
  {
    var order := tx.inputs[i];
    var t := ParseOrderArgs(order.lock.args).value;
    var j :| 0 <= j < |tx.outputs| && IsRefund(hash, order, t, tx.outputs[j]);
    assert Refunds(hash, order, tx.outputs, j);
    var f := FirstRefund(hash, order, tx.outputs, j);
    assert Counted(hash, dex, tx, i) == {f};
    CapacityAtLeast(tx.outputs, {f}, f);
  }

  lemma FillHonoured(hash: Hasher, dex: ScriptId, tx: Tx, b: nat, s: nat)
    requires b < |tx.inputs| && s < |tx.inputs| && |DexIndices(dex, tx.inputs)| == 2 && Settles(hash, tx, b, s)
    ensures Honoured(hash, dex, tx, b) && Honoured(hash, dex, tx, s)
    ensures Counted(hash, dex, tx, b) !! Counted(hash, dex, tx, s)
  {
    var buy := ParseOrderArgs(tx.inputs[b].lock.args).value;
    var sell := ParseOrderArgs(tx.inputs[s].lock.args).value;
    CapacityAtIs(tx.outputs, Counted(hash, dex, tx, b), TokenCapacity(hash, buy));
    TokensAtIs(tx.outputs, Counted(hash, dex, tx, b), TokensPaid(hash, buy));
    CapacityAtIs(tx.outputs, Counted(hash, dex, tx, s), PlainPaid(hash, sell.maker));
  }

  lemma AcceptedHonoursOne(hash: Hasher, dex: ScriptId, tx: Tx, i: nat)
    requires AllGroupsAccept(hash, dex, tx) && i < |tx.inputs| && tx.inputs[i].lock.Id() == dex
    ensures Honoured(hash, dex, tx, i)
  {
    DexPositions(hash, dex, tx, i);
    var d := DexIndices(dex, tx.inputs);
    if |d| == 1 {
      CancelHonoured(hash, dex, tx, i);
    } else {
      var j := if d[0] == i then d[1] else d[0];
      if Settles(hash, tx, i, j) {
        FillHonoured(hash, dex, tx, i, j);
      } else {
        FillHonoured(hash, dex, tx, j, i);
      }
    }
  }

  // Everything the lock guarantees about one transaction, order by order.
  lemma AcceptedHonours(hash: Hasher, dex: ScriptId, tx: Tx, i: nat, j: nat)
    requires AllGroupsAccept(hash, dex, tx)
    requires i < |tx.inputs| && tx.inputs[i].lock.Id() == dex
    requires j < |tx.inputs| && tx.inputs[j].lock.Id() == dex
    ensures Honoured(hash, dex, tx, i)
    ensures i != j ==> Counted(hash, dex, tx, i) !! Counted(hash, dex, tx, j)
  {
    AcceptedHonoursOne(hash, dex, tx, i);
    if i != j {
      PairSettles(hash, dex, tx, i, j);
      if Settles(hash, tx, i, j) {
        FillHonoured(hash, dex, tx, i, j);
      } else {
        FillHonoured(hash, dex, tx, j, i);
      }
    }
  }

  // ---- Over every run ----

  lemma {:induction false} GoneStaysGone(hash: Hasher, dex: ScriptId, s: State, run: seq<RawTx>, p: OutPoint, k: nat)
    requires WellFormed(s) && ValidRun(hash, dex, s, run) && k <= |run|
    requires p.tx < s.next && p !in s.live
    ensures p !in StateAt(s, run, k).live
    decreases k
  {
    if k > 0 {
      GoneStaysGone(hash, dex, Apply(s, run[0]), run[1..], p, k - 1);
    }
  }

  lemma {:induction false} SpentOnceAcross(hash: Hasher, dex: ScriptId, s: State, run: seq<RawTx>, k: nat, l: nat,
                                           i: nat)
    requires WellFormed(s) && ValidRun(hash, dex, s, run) && k < l < |run| && i < |run[k].inputs|
    ensures run[k].inputs[i] !in run[l].inputs
    decreases k
  {
    if k == 0 {
      var p := run[0].inputs[i];
      assert p in s.live && p !in Apply(s, run[0]).live;
      GoneStaysGone(hash, dex, Apply(s, run[0]), run[1..], p, l - 1);
      RunPoint(hash, dex, s, run, l);
    } else {
      SpentOnceAcross(hash, dex, Apply(s, run[0]), run[1..], k - 1, l - 1, i);
    }
  }

  ghost function CountedCells(hash: Hasher, dex: ScriptId, s: State, run: seq<RawTx>, k: nat, i: nat): set<OutPoint>
    requires WellFormed(s) && ValidRun(hash, dex, s, run) && k < |run| && i < |run[k].inputs|
  {
    set j | j in Counted(hash, dex, TxAt(hash, dex, s, run, k), i) :: OutPoint(s.next + k, j)
  }

  ghost predicate Consumes(hash: Hasher, dex: ScriptId, s: State, run: seq<RawTx>, k: nat, i: nat)
    requires WellFormed(s) && ValidRun(hash, dex, s, run)
  {
    k < |run| && i < |run[k].inputs| && TxAt(hash, dex, s, run, k).inputs[i].lock.Id() == dex
  }

  // In any run, every consumed order is honoured, consumed once, and shares no counted output with another.
  lemma RunHonoursOrders(hash: Hasher, dex: ScriptId, s: State, run: seq<RawTx>, k: nat, i: nat, l: nat, j: nat)
    requires WellFormed(s) && ValidRun(hash, dex, s, run)
    requires Consumes(hash, dex, s, run, k, i) && Consumes(hash, dex, s, run, l, j)
    ensures Honoured(hash, dex, TxAt(hash, dex, s, run, k), i)
    ensures (k, i) != (l, j) ==> run[k].inputs[i] != run[l].inputs[j]
    ensures (k, i) != (l, j) ==>
      CountedCells(hash, dex, s, run, k, i) !! CountedCells(hash, dex, s, run, l, j)
  {
    RunPoint(hash, dex, s, run, k);
    AcceptedHonours(hash, dex, TxAt(hash, dex, s, run, k), i, if k == l then j else i);
    if k < l {
      SpentOnceAcross(hash, dex, s, run, k, l, i);
    } else if l < k {
      SpentOnceAcross(hash, dex, s, run, l, k, j);
    }
  }

  // ---- Totals per maker, plain cells and token cells kept apart ----

  predicate IsPaidTo(hash: Hasher, m: Hash, plain: bool, c: Cell) {
    hash(c.lock) == m && c.typ.None? == plain
  }

  function PaidTo(hash: Hasher, m: Hash, plain: bool): Cell -> int {
    (c: Cell) => if IsPaidTo(hash, m, plain, c) then c.capacity else 0
  }

  // Whether the order's payment is due in plain cells.
  predicate DueInPlain(dex: ScriptId, tx: Tx, i: nat, t: Terms)
    requires i < |tx.inputs|
  {
    if |DexIndices(dex, tx.inputs)| == 1 then tx.inputs[i].typ.None? else t.side == Sell
  }

  function DueTo(dex: ScriptId, tx: Tx, m: Hash, plain: bool): nat -> int {
    (i: nat) =>
      if i >= |tx.inputs| then 0
      else match ParseOrderArgs(tx.inputs[i].lock.args)
        case Err(_) => 0
        case Ok(t) => if t.maker == m && DueInPlain(dex, tx, i, t) == plain then Due(dex, tx, i, t) else 0
  }

  function TotalDue(dex: ScriptId, m: Hash, plain: bool): Tx -> int {
    (tx: Tx) => Sum(DexIndices(dex, tx.inputs), DueTo(dex, tx, m, plain))
  }

  function TotalPaid(hash: Hasher, dex: ScriptId, m: Hash, plain: bool): Tx -> int {
    (tx: Tx) => if DexIndices(dex, tx.inputs) == [] then 0 else Sum(tx.outputs, PaidTo(hash, m, plain))
  }

  lemma {:induction false} CountedWithin(outputs: seq<Cell>, counted: set<nat>, f: Cell -> int)
    requires forall j :: 0 <= j < |outputs| ==> f(outputs[j]) >= if j in counted then outputs[j].capacity else 0
    ensures CapacityAt(outputs, counted) <= Sum(outputs, f)
  {
    if outputs != [] {
      CountedWithin(outputs[..|outputs| - 1], counted, f);
    }
  }

  lemma DuePaidOne(hash: Hasher, dex: ScriptId, tx: Tx, i: nat, m: Hash, plain: bool)
    requires i < |tx.inputs| && Honoured(hash, dex, tx, i) && |DexIndices(dex, tx.inputs)| <= 2
    ensures DueTo(dex, tx, m, plain)(i) <= Sum(tx.outputs, PaidTo(hash, m, plain))
  {
    var t := ParseOrderArgs(tx.inputs[i].lock.args).value;
    var counted := Counted(hash, dex, tx, i);
    if t.maker == m && DueInPlain(dex, tx, i, t) == plain {
      CountedWithin(tx.outputs, counted, PaidTo(hash, m, plain));
    } else {
      SumPrefix(tx.outputs, 0, PaidTo(hash, m, plain));
    }
  }

  // A settlement owes its two makers in different kinds of cells, so nothing is counted twice even
  // when one maker is on both sides.
  lemma TxPaysMaker(hash: Hasher, dex: ScriptId, tx: Tx, m: Hash, plain: bool)
    requires AllGroupsAccept(hash, dex, tx)
    ensures TotalDue(dex, m, plain)(tx) <= TotalPaid(hash, dex, m, plain)(tx)
  {
    VerdictsAddUp(hash, dex, tx);
    var d := DexIndices(dex, tx.inputs);
    if |d| == 1 {
      assert d == [d[0]];
      SumOne(d[0], DueTo(dex, tx, m, plain));
      AcceptedHonours(hash, dex, tx, d[0], d[0]);
      DuePaidOne(hash, dex, tx, d[0], m, plain);
    } else if |d| == 2 {
      assert d == [d[0], d[1]];
      SumTwo(d[0], d[1], DueTo(dex, tx, m, plain));
      AcceptedHonours(hash, dex, tx, d[0], d[1]);
      AcceptedHonours(hash, dex, tx, d[1], d[0]);
      DuePaidOne(hash, dex, tx, d[0], m, plain);
      DuePaidOne(hash, dex, tx, d[1], m, plain);
    }
  }

  ghost function ResolvedRun(hash: Hasher, dex: ScriptId, s: State, run: seq<RawTx>): (r: seq<Tx>)
    requires WellFormed(s) && ValidRun(hash, dex, s, run)
    ensures |r| == |run|
  {
    seq(|run|, k requires 0 <= k < |run| => TxAt(hash, dex, s, run, k))
  }

  // Over any run, every maker has received at least what all its consumed orders were due.
  lemma RunPaysMakers(hash: Hasher, dex: ScriptId, s: State, run: seq<RawTx>, m: Hash, plain: bool)
    requires WellFormed(s) && ValidRun(hash, dex, s, run)
    ensures var txs := ResolvedRun(hash, dex, s, run);
      Sum(txs, TotalDue(dex, m, plain)) <= Sum(txs, TotalPaid(hash, dex, m, plain))
  {
    var txs := ResolvedRun(hash, dex, s, run);
    forall k | 0 <= k < |txs|
      ensures TotalDue(dex, m, plain)(txs[k]) <= TotalPaid(hash, dex, m, plain)(txs[k])
    {
      RunPoint(hash, dex, s, run, k);
      TxPaysMaker(hash, dex, txs[k], m, plain);
    }
    SumMonotone(txs, TotalDue(dex, m, plain), TotalPaid(hash, dex, m, plain));
  }

  // ---- Tokens over every run ----

  predicate IsTokenTo(hash: Hasher, m: Hash, asset: Hash, c: Cell) {
    hash(c.lock) == m && TypeHash(hash, c) == Some(asset)
  }

  function TokenTo(hash: Hasher, m: Hash, asset: Hash): Cell -> int {
    (c: Cell) => if IsTokenTo(hash, m, asset, c) then Amount(c.data) else 0
  }

  // The tokens of one kind an order's maker is entitled to: what a filled buy asked for, and what a
  // cancelled order's cell held.
  function TokensDue(hash: Hasher, dex: ScriptId, tx: Tx, m: Hash, asset: Hash): nat -> int {
    (i: nat) =>
      if i >= |tx.inputs| then 0
      else match ParseOrderArgs(tx.inputs[i].lock.args)
        case Err(_) => 0
        case Ok(t) =>
          if t.maker != m then 0
          else if |DexIndices(dex, tx.inputs)| == 1 then
            if TypeHash(hash, tx.inputs[i]) == Some(asset) then Amount(tx.inputs[i].data) else 0
          else if t.side == Buy && t.asset == asset then t.amount else 0
  }

  function TotalTokensDue(hash: Hasher, dex: ScriptId, m: Hash, asset: Hash): Tx -> int {
    (tx: Tx) => Sum(DexIndices(dex, tx.inputs), TokensDue(hash, dex, tx, m, asset))
  }

  function TotalTokensPaid(hash: Hasher, dex: ScriptId, m: Hash, asset: Hash): Tx -> int {
    (tx: Tx) => if DexIndices(dex, tx.inputs) == [] then 0 else Sum(tx.outputs, TokenTo(hash, m, asset))
  }

  lemma OneOfSum<T(!new)>(s: seq<T>, i: nat, f: T -> int)
    requires i < |s| && NonNegative(f)
    ensures f(s[i]) <= Sum(s, f)
  {
    SumPrefix(s, i + 1, f);
    SumPrefix(s[..i], i, f);
    assert s[..i + 1][..i] == s[..i] && s[..i][..i] == s[..i];
  }

  lemma CancelReturnsTokens(hash: Hasher, dex: ScriptId, tx: Tx, i: nat, m: Hash, asset: Hash)
    requires i < |tx.inputs| && DexIndices(dex, tx.inputs) == [i] && Cancels(hash, tx, i)
    ensures TokensDue(hash, dex, tx, m, asset)(i) <= Sum(tx.outputs, TokenTo(hash, m, asset))
  {
    var t := ParseOrderArgs(tx.inputs[i].lock.args).value;
    var j :| 0 <= j < |tx.outputs| && IsRefund(hash, tx.inputs[i], t, tx.outputs[j]);
    OneOfSum(tx.outputs, j, TokenTo(hash, m, asset));
  }

  lemma SettlementPaysTokens(hash: Hasher, dex: ScriptId, tx: Tx, b: nat, s: nat, m: Hash, asset: Hash)
    requires b < |tx.inputs| && s < |tx.inputs| && |DexIndices(dex, tx.inputs)| == 2 && Settles(hash, tx, b, s)
    ensures TokensDue(hash, dex, tx, m, asset)(b) + TokensDue(hash, dex, tx, m, asset)(s) <=
      Sum(tx.outputs, TokenTo(hash, m, asset))
  {
    var buy := ParseOrderArgs(tx.inputs[b].lock.args).value;
    SettlesIsPair(hash, tx, b, s);
    if buy.maker == m && buy.asset == asset {
      SumMonotone(tx.outputs, TokensPaid(hash, buy), TokenTo(hash, m, asset));
    } else {
      SumPrefix(tx.outputs, 0, TokenTo(hash, m, asset));
    }
  }

  lemma TxPaysTokens(hash: Hasher, dex: ScriptId, tx: Tx, m: Hash, asset: Hash)
    requires AllGroupsAccept(hash, dex, tx)
    ensures TotalTokensDue(hash, dex, m, asset)(tx) <= TotalTokensPaid(hash, dex, m, asset)(tx)
  {
    VerdictsAddUp(hash, dex, tx);
    var d := DexIndices(dex, tx.inputs);
    var due := TokensDue(hash, dex, tx, m, asset);
    if |d| == 1 {
      assert d == [d[0]];
      SumOne(d[0], due);
      CancelReturnsTokens(hash, dex, tx, d[0], m, asset);
    } else if |d| == 2 {
      assert d == [d[0], d[1]];
      SumTwo(d[0], d[1], due);
      if Settles(hash, tx, d[0], d[1]) {
        SettlementPaysTokens(hash, dex, tx, d[0], d[1], m, asset);
      } else {
        SettlementPaysTokens(hash, dex, tx, d[1], d[0], m, asset);
      }
    }
  }

  // Over any run, every maker has received, of every token, at least what its filled buys asked for and
  // its cancelled orders held.
  lemma RunPaysTokens(hash: Hasher, dex: ScriptId, s: State, run: seq<RawTx>, m: Hash, asset: Hash)
    requires WellFormed(s) && ValidRun(hash, dex, s, run)
    ensures var txs := ResolvedRun(hash, dex, s, run);
      Sum(txs, TotalTokensDue(hash, dex, m, asset)) <= Sum(txs, TotalTokensPaid(hash, dex, m, asset))
  {
    var txs := ResolvedRun(hash, dex, s, run);
    forall k | 0 <= k < |txs|
      ensures TotalTokensDue(hash, dex, m, asset)(txs[k]) <= TotalTokensPaid(hash, dex, m, asset)(txs[k])
    {
      RunPoint(hash, dex, s, run, k);
      TxPaysTokens(hash, dex, txs[k], m, asset);
    }
    SumMonotone(txs, TotalTokensDue(hash, dex, m, asset), TotalTokensPaid(hash, dex, m, asset));
  }
}
