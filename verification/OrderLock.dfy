// The on-chain order lock: one run per script group, with checked u64/u128 arithmetic, against
// a whole-transaction specification over unbounded integers.
module OrderLock {
  import opened Bytes
  import opened Cells
  import opened Sums
  import opened OrderArgs

  const MAX_SETTLEMENT_FEE := 10_000

  const ERROR_CAPACITY_OVERFLOW := -6
  const ERROR_OUTPUT_CAPACITY_OVERFLOW := -7
  const ERROR_SELLER_UNDERPAID := -9
  const ERROR_DEX_INPUT_COUNT := -10
  const ERROR_TOKEN_AMOUNT := -17
  const ERROR_ORDER_PAIR := -18
  const ERROR_SELL_ASSET := -19
  const ERROR_BUYER_TOKEN_AMOUNT := -21
  const ERROR_TOKEN_AMOUNT_OVERFLOW := -22
  const ERROR_BUYER_TOKEN_CAPACITY_OVERFLOW := -23
  const ERROR_BUY_ORDER_CAPACITY := -24
  const ERROR_BUY_ORDER_TYPE := -25
  const ERROR_BUYER_CAPACITY_REFUND := -26
  const ERROR_CANCELLATION_REFUND := -27

  // ---- What an output is worth to a maker ----

  function Amount(data: seq<Byte>): nat {
    if |data| < 16 then 0 else FromLE(data[..16])
  }

  predicate IsPlainFor(hash: Hasher, maker: Hash, c: Cell) {
    hash(c.lock) == maker && c.typ.None?
  }

  predicate IsTokenFor(hash: Hasher, t: Terms, c: Cell) {
    hash(c.lock) == t.maker && TypeHash(hash, c) == Some(t.asset)
  }

  function PlainPaid(hash: Hasher, maker: Hash): Cell -> int {
    (c: Cell) => if IsPlainFor(hash, maker, c) then c.capacity else 0
  }

  function TokensPaid(hash: Hasher, t: Terms): Cell -> int {
    (c: Cell) => if IsTokenFor(hash, t, c) then Amount(c.data) else 0
  }

  function TokenCapacity(hash: Hasher, t: Terms): Cell -> int {
    (c: Cell) => if IsTokenFor(hash, t, c) then c.capacity else 0
  }

  // ---- Exit codes of the three validators, with sums over unbounded integers ----

  function TokenAmountCode(data: seq<Byte>, expected: nat): int {
    if |data| < 16 then ERROR_TOKEN_AMOUNT
    else if Amount(data) != expected then ERROR_SELL_ASSET
    else 0
  }

  function SellCode(hash: Hasher, tx: Tx, i: nat, t: Terms): int
    requires i < |tx.inputs|
  {
    var order := tx.inputs[i];
    var paid := Sum(tx.outputs, PlainPaid(hash, t.maker));
    if TypeHash(hash, order) != Some(t.asset) then ERROR_SELL_ASSET
    else if TokenAmountCode(order.data, t.amount) != 0 then TokenAmountCode(order.data, t.amount)
    else if order.capacity + t.price > U64_MAX then ERROR_CAPACITY_OVERFLOW
    else if paid > U64_MAX then ERROR_OUTPUT_CAPACITY_OVERFLOW
    else if paid < order.capacity + t.price then ERROR_SELLER_UNDERPAID
    else 0
  }

  // The first output at which the buyer's sums cannot be formed decides the code.
  function BuyScanCode(hash: Hasher, t: Terms, outputs: seq<Cell>): int {
    if outputs == [] then 0
    else
      var before := BuyScanCode(hash, t, outputs[..|outputs| - 1]);
      var last := outputs[|outputs| - 1];
      if before != 0 then before
      else if !IsTokenFor(hash, t, last) then 0
      else if |last.data| < 16 then ERROR_TOKEN_AMOUNT
      else if Sum(outputs, TokensPaid(hash, t)) > U128_MAX then ERROR_TOKEN_AMOUNT_OVERFLOW
      else if Sum(outputs, TokenCapacity(hash, t)) > U64_MAX then ERROR_BUYER_TOKEN_CAPACITY_OVERFLOW
      else 0
  }

  function BuyCode(hash: Hasher, tx: Tx, i: nat, t: Terms): int
    requires i < |tx.inputs|
  {
    var order := tx.inputs[i];
    var required := t.price + Sum(tx.outputs, TokenCapacity(hash, t));
    if order.typ.Some? then ERROR_BUY_ORDER_TYPE
    else if BuyScanCode(hash, t, tx.outputs) != 0 then BuyScanCode(hash, t, tx.outputs)
    else if Sum(tx.outputs, TokensPaid(hash, t)) != t.amount then ERROR_BUYER_TOKEN_AMOUNT
    else if required > U64_MAX then ERROR_CAPACITY_OVERFLOW
    else if order.capacity < required then ERROR_BUY_ORDER_CAPACITY
    else if order.capacity - required > MAX_SETTLEMENT_FEE then ERROR_BUYER_CAPACITY_REFUND
    else 0
  }

  predicate IsRefund(hash: Hasher, order: Cell, t: Terms, c: Cell) {
    hash(c.lock) == t.maker && TypeHash(hash, c) == TypeHash(hash, order)
    && c.data == order.data && c.capacity >= order.capacity
  }

  predicate Refunded(hash: Hasher, order: Cell, t: Terms, outputs: seq<Cell>) {
    exists j :: 0 <= j < |outputs| && IsRefund(hash, order, t, outputs[j])
  }

  // ---- The entry point ----

  predicate MakerPresent(hash: Hasher, tx: Tx, maker: Hash) {
    exists i :: 0 <= i < |tx.inputs| && hash(tx.inputs[i].lock) == maker
  }

  // Positions of the inputs that run the order lock, ascending.
  function DexIndices(dex: ScriptId, inputs: seq<Cell>): (r: seq<nat>)
    ensures forall k :: 0 <= k < |r| ==> r[k] < |inputs| && inputs[r[k]].lock.Id() == dex
    ensures forall j, k :: 0 <= j < k < |r| ==> r[j] < r[k]
  {
    if inputs == [] then []
    else
      var n := |inputs| - 1;
      DexIndices(dex, inputs[..n]) + if inputs[n].lock.Id() == dex then [n] else []
  }

  // Every input of a script group carries the same lock; the group is read through its first one.
  function GroupFirst(inputs: seq<Cell>, own: Script): (g: nat)
    requires exists i :: 0 <= i < |inputs| && inputs[i].lock == own
    ensures g < |inputs| && inputs[g].lock == own
    ensures forall i :: 0 <= i < g ==> inputs[i].lock != own
  {
    if inputs[0].lock == own then 0 else 1 + GroupFirst(inputs[1..], own)
  }

  datatype Pair = Pair(buyIndex: nat, buy: Terms, sellIndex: nat, sell: Terms)

  predicate SameDeal(buy: Terms, sell: Terms) {
    buy.asset == sell.asset && buy.amount == sell.amount && buy.price == sell.price
  }

  function PairOf(inputs: seq<Cell>, i: nat, j: nat): (r: Result<Pair, int>)
    requires i < |inputs| && j < |inputs|
    ensures r.Ok? ==> {r.value.buyIndex, r.value.sellIndex} == {i, j} && SameDeal(r.value.buy, r.value.sell)
  {
    match (ParseOrderArgs(inputs[i].lock.args), ParseOrderArgs(inputs[j].lock.args))
    case (Err(e), _) => Err(e)
    case (_, Err(e)) => Err(e)
    case (Ok(a), Ok(b)) =>
      if a.side == b.side then Err(ERROR_ORDER_PAIR)
      else
        var p := if a.side == Buy then Pair(i, a, j, b) else Pair(j, b, i, a);
        if SameDeal(p.buy, p.sell) then Ok(p) else Err(ERROR_ORDER_PAIR)
  }

  predicate Runs(tx: Tx, own: Script) {
    exists i :: 0 <= i < |tx.inputs| && tx.inputs[i].lock == own
  }

  function EntryCode(hash: Hasher, tx: Tx, own: Script): int
    requires Runs(tx, own)
  {
    match ParseOrderArgs(own.args)
    case Err(e) => e
    case Ok(t) =>
      var dex := DexIndices(own.Id(), tx.inputs);
      if MakerPresent(hash, tx, t.maker) then
        if |dex| != 1 then ERROR_DEX_INPUT_COUNT
        else if Refunded(hash, tx.inputs[GroupFirst(tx.inputs, own)], t, tx.outputs) then 0
        else ERROR_CANCELLATION_REFUND
      else if |dex| != 2 then ERROR_DEX_INPUT_COUNT
      else match PairOf(tx.inputs, dex[0], dex[1])
        case Err(e) => e
        case Ok(p) =>
          if t.side == Buy then BuyCode(hash, tx, p.buyIndex, p.buy) else SellCode(hash, tx, p.sellIndex, p.sell)
  }

  // ---- The script, loop by loop ----

  method LoadTokenAmount(data: seq<Byte>) returns (r: Result<nat, int>)
    ensures r == if |data| < 16 then Err(ERROR_TOKEN_AMOUNT) else Ok(Amount(data))
    ensures r.Ok? ==> r.value <= U128_MAX
  {
    if |data| < 16 {
      return Err(ERROR_TOKEN_AMOUNT);
    }
    WidthLimits();
    FromLEBound(data[..16]);
    r := Ok(FromLE(data[..16]));
  }

  method ValidateSellOrder(hash: Hasher, tx: Tx, index: nat, order: Terms) returns (code: int)
    requires index < |tx.inputs|
    ensures code == SellCode(hash, tx, index, order)
  {
    var input := tx.inputs[index];
    if TypeHash(hash, input) != Some(order.asset) {
      return ERROR_SELL_ASSET;
    }
    var held := LoadTokenAmount(input.data);
    if held.Err? {
      return held.error;
    }
    if held.value != order.amount {
      return ERROR_SELL_ASSET;
    }
    if input.capacity + order.price > U64_MAX {
      return ERROR_CAPACITY_OVERFLOW;
    }
    var required: U64 := input.capacity + order.price;
    var paid: U64 := 0;
    ghost var f := PlainPaid(hash, order.maker);
    var i := 0;
    while i < |tx.outputs|
      invariant 0 <= i <= |tx.outputs|
      invariant paid == Sum(tx.outputs[..i], f)
    {
      var output := tx.outputs[i];
      assert tx.outputs[..i + 1][..i] == tx.outputs[..i];
      if hash(output.lock) == order.maker && output.typ.None? {
        if paid + output.capacity > U64_MAX {
          SumPrefix(tx.outputs, i + 1, f);
          return ERROR_OUTPUT_CAPACITY_OVERFLOW;
        }
        paid := paid + output.capacity;
      }
      i := i + 1;
    }
    assert tx.outputs[..i] == tx.outputs;
    code := if paid < required then ERROR_SELLER_UNDERPAID else 0;
  }

  // An error met while scanning a prefix is the error of the whole scan.
  lemma {:induction false} BuyScanStops(hash: Hasher, t: Terms, outputs: seq<Cell>, k: nat)
    requires k <= |outputs| && BuyScanCode(hash, t, outputs[..k]) != 0
    ensures BuyScanCode(hash, t, outputs) == BuyScanCode(hash, t, outputs[..k])
  {
    if k == |outputs| {
      assert outputs[..k] == outputs;
    } else {
      assert outputs[..|outputs| - 1][..k] == outputs[..k];
      BuyScanStops(hash, t, outputs[..|outputs| - 1], k);
    }
  }

  // One more output: the sums grow by what it is worth, and the scan goes on unless it cannot be counted.
  lemma BuyScanSnoc(hash: Hasher, t: Terms, outputs: seq<Cell>, i: nat)
    requires i < |outputs| && BuyScanCode(hash, t, outputs[..i]) == 0
    ensures var c := outputs[i];
      var tokens := Sum(outputs[..i], TokensPaid(hash, t)) + TokensPaid(hash, t)(c);
      var capacity := Sum(outputs[..i], TokenCapacity(hash, t)) + TokenCapacity(hash, t)(c);
      && Sum(outputs[..i + 1], TokensPaid(hash, t)) == tokens
      && Sum(outputs[..i + 1], TokenCapacity(hash, t)) == capacity
      && BuyScanCode(hash, t, outputs[..i + 1]) ==
           if !IsTokenFor(hash, t, c) then 0
           else if |c.data| < 16 then ERROR_TOKEN_AMOUNT
           else if tokens > U128_MAX then ERROR_TOKEN_AMOUNT_OVERFLOW
           else if capacity > U64_MAX then ERROR_BUYER_TOKEN_CAPACITY_OVERFLOW
           else 0
  {
    assert outputs[..i + 1][..i] == outputs[..i];
  }

  method ValidateBuyOrder(hash: Hasher, tx: Tx, index: nat, order: Terms) returns (code: int)
    requires index < |tx.inputs|
    ensures code == BuyCode(hash, tx, index, order)
  {
    var input := tx.inputs[index];
    if input.typ.Some? {
      return ERROR_BUY_ORDER_TYPE;
    }
    var tokens: nat := 0;
    var tokenCapacity: U64 := 0;
    var i := 0;
    while i < |tx.outputs|
      invariant 0 <= i <= |tx.outputs|
      invariant tokens == Sum(tx.outputs[..i], TokensPaid(hash, order)) <= U128_MAX
      invariant tokenCapacity == Sum(tx.outputs[..i], TokenCapacity(hash, order))
      invariant BuyScanCode(hash, order, tx.outputs[..i]) == 0
    {
      var output := tx.outputs[i];
      BuyScanSnoc(hash, order, tx.outputs, i);
      if hash(output.lock) == order.maker && TypeHash(hash, output) == Some(order.asset) {
        var amount := LoadTokenAmount(output.data);
        if amount.Err? {
          BuyScanStops(hash, order, tx.outputs, i + 1);
          return amount.error;
        }
        if tokens + amount.value > U128_MAX {
          BuyScanStops(hash, order, tx.outputs, i + 1);
          return ERROR_TOKEN_AMOUNT_OVERFLOW;
        }
        if tokenCapacity + output.capacity > U64_MAX {
          BuyScanStops(hash, order, tx.outputs, i + 1);
          return ERROR_BUYER_TOKEN_CAPACITY_OVERFLOW;
        }
        tokens := tokens + amount.value;
        tokenCapacity := tokenCapacity + output.capacity;
      }
      i := i + 1;
    }
    assert tx.outputs[..i] == tx.outputs;
    if tokens != order.amount {
      return ERROR_BUYER_TOKEN_AMOUNT;
    }
    if order.price + tokenCapacity > U64_MAX {
      return ERROR_CAPACITY_OVERFLOW;
    }
    if input.capacity < order.price + tokenCapacity {
      return ERROR_BUY_ORDER_CAPACITY;
    }
    var unreturned: U64 := input.capacity - (order.price + tokenCapacity);
    code := if unreturned > MAX_SETTLEMENT_FEE then ERROR_BUYER_CAPACITY_REFUND else 0;
  }

  method ValidateCancellation(hash: Hasher, tx: Tx, own: Script, order: Terms) returns (code: int)
    requires Runs(tx, own)
    ensures code == if Refunded(hash, tx.inputs[GroupFirst(tx.inputs, own)], order, tx.outputs) then 0
                    else ERROR_CANCELLATION_REFUND
  {
    var cell := tx.inputs[GroupFirst(tx.inputs, own)];
    var i := 0;
    while i < |tx.outputs|
      invariant 0 <= i <= |tx.outputs|
      invariant forall j :: 0 <= j < i ==> !IsRefund(hash, cell, order, tx.outputs[j])
    {
      var output := tx.outputs[i];
      i := i + 1;
      if hash(output.lock) != order.maker {
        continue;
      }
      if TypeHash(hash, output) != TypeHash(hash, cell) {
        continue;
      }
      if output.data != cell.data {
        continue;
      }
      if output.capacity >= cell.capacity {
        assert IsRefund(hash, cell, order, tx.outputs[i - 1]);
        return 0;
      }
    }
    code := ERROR_CANCELLATION_REFUND;
  }

  lemma {:induction false} DexComplete(dex: ScriptId, inputs: seq<Cell>, i: nat)
    requires i < |inputs| && inputs[i].lock.Id() == dex
    ensures i in DexIndices(dex, inputs)
  {
    if i < |inputs| - 1 {
      DexComplete(dex, inputs[..|inputs| - 1], i);
    }
  }

  lemma AllDexIndices(dex: ScriptId, inputs: seq<Cell>)
    ensures forall i :: 0 <= i < |inputs| ==> (inputs[i].lock.Id() == dex <==> i in DexIndices(dex, inputs))
  {
    forall i | 0 <= i < |inputs| && inputs[i].lock.Id() == dex
      ensures i in DexIndices(dex, inputs)
    {
      DexComplete(dex, inputs, i);
    }
  }

  method CountDexInputs(dex: ScriptId, inputs: seq<Cell>) returns (n: nat)
    ensures n == |DexIndices(dex, inputs)|
  {
    n := 0;
    var i := 0;
    while i < |inputs|
      invariant 0 <= i <= |inputs|
      invariant n == |DexIndices(dex, inputs[..i])|
    {
      assert inputs[..i + 1][..i] == inputs[..i];
      if inputs[i].lock.Id() == dex {
        n := n + 1;
      }
      i := i + 1;
    }
    assert inputs[..i] == inputs;
  }

  // The loop that fills buy_order and sell_order from the two DEX inputs.
  method FindPair(dex: ScriptId, inputs: seq<Cell>) returns (r: Result<Pair, int>)
    requires |DexIndices(dex, inputs)| == 2
    ensures r == PairOf(inputs, DexIndices(dex, inputs)[0], DexIndices(dex, inputs)[1])
  {
    var buy: Option<(nat, Terms)> := None;
    var sell: Option<(nat, Terms)> := None;
    AllDexIndices(dex, inputs);
    ghost var p, q := DexIndices(dex, inputs)[0], DexIndices(dex, inputs)[1];
    ghost var first, second := ParseOrderArgs(inputs[p].lock.args), ParseOrderArgs(inputs[q].lock.args);
    var i := 0;
    while i < |inputs|
      invariant 0 <= i <= |inputs|
      invariant i <= p ==> buy.None? && sell.None?
      invariant p < i ==> first.Ok?
      invariant p < i <= q ==> buy == (if first.value.side == Buy then Some((p, first.value)) else None)
      invariant p < i <= q ==> sell == (if first.value.side == Sell then Some((p, first.value)) else None)
      invariant q < i ==> second.Ok? && first.value.side != second.value.side
      invariant q < i ==> buy == Some(if first.value.side == Buy then (p, first.value) else (q, second.value))
      invariant q < i ==> sell == Some(if first.value.side == Sell then (p, first.value) else (q, second.value))
    {
      if inputs[i].lock.Id() == dex {
        assert i == p || i == q;
        match ParseOrderArgs(inputs[i].lock.args) {
          case Err(e) => return Err(e);
          case Ok(order) =>
            if order.side == Buy && buy.None? {
              buy := Some((i, order));
            } else if order.side == Sell && sell.None? {
              sell := Some((i, order));
            } else {
              return Err(ERROR_ORDER_PAIR);
            }
        }
      }
      i := i + 1;
    }
    var (buyIndex, b) := buy.value;
    var (sellIndex, s) := sell.value;
    if !SameDeal(b, s) {
      return Err(ERROR_ORDER_PAIR);
    }
    r := Ok(Pair(buyIndex, b, sellIndex, s));
  }

  method ProgramEntry(hash: Hasher, tx: Tx, script: Script) returns (code: int)
    requires Runs(tx, script)
    ensures code == EntryCode(hash, tx, script)
  {
    var own: Terms;
    match ParseOrderArgs(script.args) {
      case Err(e) => return e;
      case Ok(order) => own := order;
    }
    var dexInputCount := CountDexInputs(script.Id(), tx.inputs);
    if MakerPresent(hash, tx, own.maker) {
      if dexInputCount != 1 {
        return ERROR_DEX_INPUT_COUNT;
      }
      code := ValidateCancellation(hash, tx, script, own);
      return;
    }
    if dexInputCount != 2 {
      return ERROR_DEX_INPUT_COUNT;
    }
    var found := FindPair(script.Id(), tx.inputs);
    match found {
      case Err(e) => return e;
      case Ok(pair) =>
        if own.side == Buy {
          code := ValidateBuyOrder(hash, tx, pair.buyIndex, pair.buy);
        } else {
          code := ValidateSellOrder(hash, tx, pair.sellIndex, pair.sell);
        }
    }
  }

  // ---- The whole-transaction specification ----

  // The seller receives price plus cell capacity in plain CKB, in an amount u64 can count.
  predicate SellerPaid(hash: Hasher, tx: Tx, i: nat, t: Terms)
    requires i < |tx.inputs|
  {
    var order := tx.inputs[i];
    && TypeHash(hash, order) == Some(t.asset) && |order.data| >= 16 && Amount(order.data) == t.amount
    && order.capacity + t.price <= Sum(tx.outputs, PlainPaid(hash, t.maker)) <= U64_MAX
  }

  // The buyer receives exactly the tokens, and all but the price and a bounded fee of the CKB.
  predicate BuyerPaid(hash: Hasher, tx: Tx, i: nat, t: Terms)
    requires i < |tx.inputs|
  {
    var order := tx.inputs[i];
    && order.typ.None?
    && (forall j :: 0 <= j < |tx.outputs| && IsTokenFor(hash, t, tx.outputs[j]) ==> |tx.outputs[j].data| >= 16)
    && Sum(tx.outputs, TokensPaid(hash, t)) == t.amount
    && 0 <= order.capacity - t.price - Sum(tx.outputs, TokenCapacity(hash, t)) <= MAX_SETTLEMENT_FEE
  }

  predicate Cancels(hash: Hasher, tx: Tx, i: nat)
    requires i < |tx.inputs|
  {
    match ParseOrderArgs(tx.inputs[i].lock.args)
    case Err(_) => false
    case Ok(t) => MakerPresent(hash, tx, t.maker) && Refunded(hash, tx.inputs[i], t, tx.outputs)
  }

  predicate Settles(hash: Hasher, tx: Tx, b: nat, s: nat)
    requires b < |tx.inputs| && s < |tx.inputs|
  {
    match (ParseOrderArgs(tx.inputs[b].lock.args), ParseOrderArgs(tx.inputs[s].lock.args))
    case (Ok(buy), Ok(sell)) =>
      && buy.side == Buy && sell.side == Sell && SameDeal(buy, sell)
      && !MakerPresent(hash, tx, buy.maker) && !MakerPresent(hash, tx, sell.maker)
      && BuyerPaid(hash, tx, b, buy) && SellerPaid(hash, tx, s, sell)
    case _ => false
  }

  predicate WholeTx(hash: Hasher, dex: ScriptId, tx: Tx) {
    var d := DexIndices(dex, tx.inputs);
    || |d| == 0
    || (|d| == 1 && Cancels(hash, tx, d[0]))
    || (|d| == 2 && (Settles(hash, tx, d[0], d[1]) || Settles(hash, tx, d[1], d[0])))
  }

  predicate AllGroupsAccept(hash: Hasher, dex: ScriptId, tx: Tx) {
    forall i :: 0 <= i < |tx.inputs| && tx.inputs[i].lock.Id() == dex ==>
      EntryCode(hash, tx, tx.inputs[i].lock) == 0
  }

  // The scan succeeds exactly when every counted output holds an amount and both true sums fit.
  lemma {:induction false} BuyScanMeaning(hash: Hasher, t: Terms, outputs: seq<Cell>)
    ensures BuyScanCode(hash, t, outputs) == 0 <==>
      && (forall j :: 0 <= j < |outputs| && IsTokenFor(hash, t, outputs[j]) ==> |outputs[j].data| >= 16)
      && Sum(outputs, TokensPaid(hash, t)) <= U128_MAX
      && Sum(outputs, TokenCapacity(hash, t)) <= U64_MAX
  {
    if outputs != [] {
      var n := |outputs| - 1;
      BuyScanMeaning(hash, t, outputs[..n]);
      SumPrefix(outputs, n, TokensPaid(hash, t));
      SumPrefix(outputs, n, TokenCapacity(hash, t));
      assert forall j :: 0 <= j < n ==> outputs[..n][j] == outputs[j];
      assert outputs[n] == outputs[|outputs| - 1];
      if BuyScanCode(hash, t, outputs[..n]) == 0 && !IsTokenFor(hash, t, outputs[n]) {
        assert Sum(outputs, TokensPaid(hash, t)) == Sum(outputs[..n], TokensPaid(hash, t));
      }
    }
  }

  // The u64/u128 loops reject exactly what the unbounded conditions reject.
  lemma ValidatorsMeanPaid(hash: Hasher, tx: Tx, i: nat, t: Terms)
    requires i < |tx.inputs| && Encodable(t)
    ensures SellCode(hash, tx, i, t) == 0 <==> SellerPaid(hash, tx, i, t)
    ensures BuyCode(hash, tx, i, t) == 0 <==> BuyerPaid(hash, tx, i, t)
  {
    BuyScanMeaning(hash, t, tx.outputs);
    SumPrefix(tx.outputs, 0, TokenCapacity(hash, t));
  }

  // ---- What each exit code says ----

  // The sell order's cell holds the tokens it declares.
  predicate HoldsDeclared(hash: Hasher, order: Cell, t: Terms) {
    TypeHash(hash, order) == Some(t.asset) && |order.data| >= 16 && FromLE(order.data[..16]) == t.amount
  }

  lemma SellCodes(hash: Hasher, tx: Tx, i: nat, t: Terms)
    requires i < |tx.inputs|
    ensures var code, order := SellCode(hash, tx, i, t), tx.inputs[i];
      var due, paid, held := order.capacity + t.price, Sum(tx.outputs, PlainPaid(hash, t.maker)),
                             HoldsDeclared(hash, order, t);
      var asset := TypeHash(hash, order) == Some(t.asset);
      && (code == -17 <==> asset && |order.data| < 16)
      && (code == -19 <==> !asset || (|order.data| >= 16 && !held))
      && (code == -6 <==> held && due > 0xFFFF_FFFF_FFFF_FFFF)
      && (code == -7 <==> held && due <= 0xFFFF_FFFF_FFFF_FFFF < paid)
      && (code == -9 <==> held && paid < due <= 0xFFFF_FFFF_FFFF_FFFF)
      && (code == 0 <==> held && due <= paid <= 0xFFFF_FFFF_FFFF_FFFF)
  {
  }

  // The first output that stops a buyer's scan, and why.
  lemma {:induction false} BuyScanStop(hash: Hasher, t: Terms, outputs: seq<Cell>) returns (k: nat)
    requires BuyScanCode(hash, t, outputs) != 0
    ensures k < |outputs| && BuyScanCode(hash, t, outputs[..k]) == 0 && IsTokenFor(hash, t, outputs[k])
    ensures var code := BuyScanCode(hash, t, outputs);
      var tokens := Sum(outputs[..k], TokensPaid(hash, t)) + Amount(outputs[k].data);
      var capacity := Sum(outputs[..k], TokenCapacity(hash, t)) + outputs[k].capacity;
      && (code == -17 <==> |outputs[k].data| < 16)
      && (code == -22 <==> |outputs[k].data| >= 16 && tokens > 0xFFFF_FFFF_FFFF_FFFF_FFFF_FFFF_FFFF_FFFF)
      && (code == -23 <==> |outputs[k].data| >= 16 && tokens <= 0xFFFF_FFFF_FFFF_FFFF_FFFF_FFFF_FFFF_FFFF
                           && capacity > 0xFFFF_FFFF_FFFF_FFFF)
      && code in {-17, -22, -23}
  {
    var n := |outputs| - 1;
    if BuyScanCode(hash, t, outputs[..n]) != 0 {
      k := BuyScanStop(hash, t, outputs[..n]);
      assert outputs[..n][..k] == outputs[..k];
    } else {
      k := n;
      BuyScanSnoc(hash, t, outputs, n);
      assert outputs[..n + 1] == outputs;
    }
  }

  lemma BuyCodes(hash: Hasher, tx: Tx, i: nat, t: Terms)
    requires i < |tx.inputs|
    ensures var code, order := BuyCode(hash, tx, i, t), tx.inputs[i];
      var scan := BuyScanCode(hash, t, tx.outputs);
      var tokens, spent := Sum(tx.outputs, TokensPaid(hash, t)), t.price + Sum(tx.outputs, TokenCapacity(hash, t));
      var counted := order.typ.None? && scan == 0 && tokens == t.amount;
      && (code == -25 <==> order.typ.Some?)
      && (order.typ.None? && scan != 0 ==> code == scan)
      && (code == -21 <==> order.typ.None? && scan == 0 && tokens != t.amount)
      && (code == -6 <==> counted && spent > 0xFFFF_FFFF_FFFF_FFFF)
      && (code == -24 <==> counted && order.capacity < spent <= 0xFFFF_FFFF_FFFF_FFFF)
      && (code == -26 <==> counted && spent + 10_000 < order.capacity)
      && (code == 0 <==> counted && spent <= order.capacity <= spent + 10_000)
  {
    if BuyScanCode(hash, t, tx.outputs) != 0 {
      var k := BuyScanStop(hash, t, tx.outputs);
    }
  }

  // What the entry point answers, case by case.
  lemma EntryCodes(hash: Hasher, tx: Tx, own: Script)
    requires Runs(tx, own)
    ensures var code, args := EntryCode(hash, tx, own), ParseOrderArgs(own.args);
      var dex := DexIndices(own.Id(), tx.inputs);
      && (args.Err? ==> code == args.error)
      && (args.Ok? ==>
            var maker := MakerPresent(hash, tx, args.value.maker);
            var wrong := |dex| != if maker then 1 else 2;
            && (wrong ==> code == -10)
            && (!wrong && maker ==> code == if Refunded(hash, tx.inputs[GroupFirst(tx.inputs, own)], args.value,
                                                        tx.outputs) then 0 else -27)
            && (!wrong && !maker ==> PairCode(hash, tx, dex[0], dex[1], args.value.side, code)))
  {
  }

  // The answer of one of the two runs of a settlement.
  ghost predicate PairCode(hash: Hasher, tx: Tx, i: nat, j: nat, side: Side, code: int)
    requires i < |tx.inputs| && j < |tx.inputs|
  {
    var first, second := ParseOrderArgs(tx.inputs[i].lock.args), ParseOrderArgs(tx.inputs[j].lock.args);
    if first.Err? then code == first.error
    else if second.Err? then code == second.error
    else if first.value.side == second.value.side || !SameDeal(first.value, second.value) then code == -18
    else
      var (b, s) := if first.value.side == Buy then (i, j) else (j, i);
      var (buy, sell) := if first.value.side == Buy then (first.value, second.value) else (second.value, first.value);
      code == if side == Buy then BuyCode(hash, tx, b, buy) else SellCode(hash, tx, s, sell)
  }

  // Two inputs pair up exactly when both are readable, on different sides and of equal terms.
  lemma PairMeaning(inputs: seq<Cell>, i: nat, j: nat)
    requires i < |inputs| && j < |inputs|
    ensures var a, b := ParseOrderArgs(inputs[i].lock.args), ParseOrderArgs(inputs[j].lock.args);
      (PairOf(inputs, i, j).Ok? <==> a.Ok? && b.Ok? && a.value.side != b.value.side && SameDeal(a.value, b.value))
      && (PairOf(inputs, i, j).Ok? ==>
            (PairOf(inputs, i, j).value ==
             if a.value.side == Buy then Pair(i, a.value, j, b.value) else Pair(j, b.value, i, a.value)))
  {
  }

  // What one of the two runs of a settlement accepts.
  lemma RunVerdict(hash: Hasher, dex: ScriptId, tx: Tx, i: nat, j: nat, k: nat)
    requires i < |tx.inputs| && j < |tx.inputs| && DexIndices(dex, tx.inputs) == [i, j] && (k == i || k == j)
    requires tx.inputs[k].lock.Id() == dex
    ensures var own, pair := ParseOrderArgs(tx.inputs[k].lock.args), PairOf(tx.inputs, i, j);
      EntryCode(hash, tx, tx.inputs[k].lock) == 0 <==>
        (own.Ok? && !MakerPresent(hash, tx, own.value.maker) && pair.Ok?
         && (if own.value.side == Buy then BuyCode(hash, tx, pair.value.buyIndex, pair.value.buy) == 0
             else SellCode(hash, tx, pair.value.sellIndex, pair.value.sell) == 0))
  {
  }

  // Two runs on a buy at b and a sell at s accept exactly when the transaction settles the one against the other.
  lemma PairVerdict(hash: Hasher, tx: Tx, b: nat, buy: Terms, s: nat, sell: Terms)
    requires b < |tx.inputs| && s < |tx.inputs|
    requires ParseOrderArgs(tx.inputs[b].lock.args) == Ok(buy) && ParseOrderArgs(tx.inputs[s].lock.args) == Ok(sell)
    requires buy.side == Buy && sell.side == Sell && SameDeal(buy, sell)
    ensures Settles(hash, tx, b, s) <==>
      (!MakerPresent(hash, tx, buy.maker) && !MakerPresent(hash, tx, sell.maker)
       && BuyCode(hash, tx, b, buy) == 0 && SellCode(hash, tx, s, sell) == 0)
  {
    DecodeThenBuild(tx.inputs[b].lock.args);
    DecodeThenBuild(tx.inputs[s].lock.args);
    ValidatorsMeanPaid(hash, tx, b, buy);
    ValidatorsMeanPaid(hash, tx, s, sell);
  }

  lemma SettlesIsPair(hash: Hasher, tx: Tx, b: nat, s: nat)
    requires b < |tx.inputs| && s < |tx.inputs| && Settles(hash, tx, b, s)
    ensures var x, y := ParseOrderArgs(tx.inputs[b].lock.args), ParseOrderArgs(tx.inputs[s].lock.args);
      x.Ok? && y.Ok? && x.value.side == Buy && y.value.side == Sell && SameDeal(x.value, y.value)
  {
  }

  lemma NotBothSides(hash: Hasher, tx: Tx, b: nat, s: nat)
    requires b < |tx.inputs| && s < |tx.inputs|
    requires ParseOrderArgs(tx.inputs[b].lock.args).Ok? && ParseOrderArgs(tx.inputs[b].lock.args).value.side == Buy
    ensures !Settles(hash, tx, s, b)
  {
    if Settles(hash, tx, s, b) {
      SettlesIsPair(hash, tx, s, b);
    }
  }

  lemma NoPairNoSettlement(hash: Hasher, tx: Tx, i: nat, j: nat)
    requires i < |tx.inputs| && j < |tx.inputs| && PairOf(tx.inputs, i, j).Err?
    ensures !Settles(hash, tx, i, j) && !Settles(hash, tx, j, i)
  {
    PairMeaning(tx.inputs, i, j);
    if Settles(hash, tx, i, j) {
      SettlesIsPair(hash, tx, i, j);
    }
    if Settles(hash, tx, j, i) {
      SettlesIsPair(hash, tx, j, i);
    }
  }

  lemma SettlementVerdict(hash: Hasher, dex: ScriptId, tx: Tx, i: nat, j: nat)
    requires i < |tx.inputs| && j < |tx.inputs| && DexIndices(dex, tx.inputs) == [i, j]
    ensures tx.inputs[i].lock.Id() == tx.inputs[j].lock.Id() == dex
    ensures (EntryCode(hash, tx, tx.inputs[i].lock) == 0 && EntryCode(hash, tx, tx.inputs[j].lock) == 0)
      <==> (Settles(hash, tx, i, j) || Settles(hash, tx, j, i))
  {
    assert tx.inputs[[i, j][0]].lock.Id() == dex && tx.inputs[[i, j][1]].lock.Id() == dex;
    RunVerdict(hash, dex, tx, i, j, i);
    RunVerdict(hash, dex, tx, i, j, j);
    PairMeaning(tx.inputs, i, j);
    if PairOf(tx.inputs, i, j).Ok? {
      var p := PairOf(tx.inputs, i, j).value;
      PairVerdict(hash, tx, p.buyIndex, p.buy, p.sellIndex, p.sell);
      NotBothSides(hash, tx, p.buyIndex, p.sellIndex);
    } else {
      NoPairNoSettlement(hash, tx, i, j);
    }
  }

  lemma CancellationVerdict(hash: Hasher, dex: ScriptId, tx: Tx, i: nat)
    requires i < |tx.inputs| && DexIndices(dex, tx.inputs) == [i]
    ensures tx.inputs[i].lock.Id() == dex
    ensures EntryCode(hash, tx, tx.inputs[i].lock) == 0 <==> Cancels(hash, tx, i)
  {
    assert tx.inputs[[i][0]].lock.Id() == dex;
    var g := GroupFirst(tx.inputs, tx.inputs[i].lock);
    DexComplete(dex, tx.inputs, g);
    assert g in [i];
  }

  lemma TooManyRejected(hash: Hasher, tx: Tx, own: Script)
    requires Runs(tx, own) && |DexIndices(own.Id(), tx.inputs)| > 2
    ensures EntryCode(hash, tx, own) != 0
  {
  }

  // A transaction with no DEX input, or with more than two, is decided by their number alone.
  lemma OtherCountsVerdict(hash: Hasher, dex: ScriptId, tx: Tx)
    requires |DexIndices(dex, tx.inputs)| == 0 || |DexIndices(dex, tx.inputs)| > 2
    ensures AllGroupsAccept(hash, dex, tx) <==> |DexIndices(dex, tx.inputs)| == 0
  {
    var d := DexIndices(dex, tx.inputs);
    if |d| == 0 {
      forall i | 0 <= i < |tx.inputs|
        ensures tx.inputs[i].lock.Id() != dex
      {
        if tx.inputs[i].lock.Id() == dex {
          DexComplete(dex, tx.inputs, i);
        }
      }
    } else {
      assert tx.inputs[d[0]].lock.Id() == dex;
      TooManyRejected(hash, tx, tx.inputs[d[0]].lock);
    }
  }

  // Only the locks at DEX positions have a verdict.
  lemma VerdictsAt(hash: Hasher, dex: ScriptId, tx: Tx, d: seq<nat>)
    requires d == DexIndices(dex, tx.inputs)
    ensures AllGroupsAccept(hash, dex, tx)
      <==> forall k :: 0 <= k < |d| ==> EntryCode(hash, tx, tx.inputs[d[k]].lock) == 0
  {
    AllDexIndices(dex, tx.inputs);
    forall i | 0 <= i < |tx.inputs| && tx.inputs[i].lock.Id() == dex
      ensures exists k :: 0 <= k < |d| && d[k] == i
    {
    }
  }

  lemma OneGroup(hash: Hasher, dex: ScriptId, tx: Tx, i: nat)
    requires i < |tx.inputs| && DexIndices(dex, tx.inputs) == [i]
    ensures AllGroupsAccept(hash, dex, tx) <==> Cancels(hash, tx, i)
  {
    VerdictsAt(hash, dex, tx, [i]);
    CancellationVerdict(hash, dex, tx, i);
    assert [i][0] == i;
  }

  lemma TwoGroups(hash: Hasher, dex: ScriptId, tx: Tx, i: nat, j: nat)
    requires i < |tx.inputs| && j < |tx.inputs| && DexIndices(dex, tx.inputs) == [i, j]
    ensures AllGroupsAccept(hash, dex, tx) <==> (Settles(hash, tx, i, j) || Settles(hash, tx, j, i))
  {
    VerdictsAt(hash, dex, tx, [i, j]);
    SettlementVerdict(hash, dex, tx, i, j);
    assert [i, j][0] == i && [i, j][1] == j;
  }

  lemma OneOrderVerdict(hash: Hasher, dex: ScriptId, tx: Tx)
    requires |DexIndices(dex, tx.inputs)| == 1
    ensures AllGroupsAccept(hash, dex, tx) <==> WholeTx(hash, dex, tx)
  {
    var d := DexIndices(dex, tx.inputs);
    assert d == [d[0]];
    OneGroup(hash, dex, tx, d[0]);
  }

  lemma TwoOrderVerdict(hash: Hasher, dex: ScriptId, tx: Tx)
    requires |DexIndices(dex, tx.inputs)| == 2
    ensures AllGroupsAccept(hash, dex, tx) <==> WholeTx(hash, dex, tx)
  {
    var d := DexIndices(dex, tx.inputs);
    assert d == [d[0], d[1]];
    TwoGroups(hash, dex, tx, d[0], d[1]);
  }

  // The separate per-group verdicts are together equivalent to the whole-transaction specification.
  lemma VerdictsAddUp(hash: Hasher, dex: ScriptId, tx: Tx)
    ensures AllGroupsAccept(hash, dex, tx) <==> WholeTx(hash, dex, tx)
  {
    var n := |DexIndices(dex, tx.inputs)|;
    if n == 1 {
      OneOrderVerdict(hash, dex, tx);
    } else if n == 2 {
      TwoOrderVerdict(hash, dex, tx);
    } else {
      OtherCountsVerdict(hash, dex, tx);
    }
  }

  // What an accepted transaction does with the order at a given input.
  lemma DexPositions(hash: Hasher, dex: ScriptId, tx: Tx, i: nat)
    requires AllGroupsAccept(hash, dex, tx) && i < |tx.inputs| && tx.inputs[i].lock.Id() == dex
    ensures var d := DexIndices(dex, tx.inputs);
      || (d == [i] && Cancels(hash, tx, i))
      || (|d| == 2 && d[0] == i && (Settles(hash, tx, i, d[1]) || Settles(hash, tx, d[1], i)))
      || (|d| == 2 && d[1] == i && (Settles(hash, tx, i, d[0]) || Settles(hash, tx, d[0], i)))
  {
    VerdictsAddUp(hash, dex, tx);
    AllDexIndices(dex, tx.inputs);
    var d := DexIndices(dex, tx.inputs);
    assert exists k :: 0 <= k < |d| && d[k] == i;
  }

  lemma PairSettles(hash: Hasher, dex: ScriptId, tx: Tx, i: nat, j: nat)
    requires AllGroupsAccept(hash, dex, tx) && i < |tx.inputs| && j < |tx.inputs| && i != j
    requires tx.inputs[i].lock.Id() == tx.inputs[j].lock.Id() == dex
    ensures |DexIndices(dex, tx.inputs)| == 2 && (Settles(hash, tx, i, j) || Settles(hash, tx, j, i))
  {
    DexPositions(hash, dex, tx, i);
    DexPositions(hash, dex, tx, j);
  }
}
