// Verification of the events that close orders: what the backend's checks of a spending transaction
// mean once the order lock has accepted that transaction.
module Spends {
  import opened Bytes
  import opened Cells
  import opened Lists
  import opened Sums
  import opened OrderArgs
  import opened OrderLock
  import opened Settlement
  import opened Ledger

  datatype SpendTx = SpendTx(info: ChainTx, inputs: seq<OutPoint>)

  datatype OrderCancelled = OrderCancelled(order: OutPoint, blockNumber: nat, blockHash: Hash)

  datatype TradeConfirmed = TradeConfirmed(
    buy: OutPoint, sell: OutPoint, blockNumber: nat, blockHash: Hash, confirmedAt: nat,
    buyer: Hash, seller: Hash, asset: Hash, amount: nat, price: nat)

  // The projection's order rows by id.
  type Rows = map<OutPoint, OrderDoc>

  function InfoOf(tx: Option<SpendTx>): Option<ChainTx> {
    if tx.None? then None else Some(tx.value.info)
  }

  // An unknown order is left for the ingestion to report.
  function VerifyOrderCancelled(v: Verification, tip: nat, tx: Option<SpendTx>, rows: Rows,
                                e: OrderCancelled): Verdict
  {
    if e.order !in rows then Accepted
    else
      var confirmed := RequireConfirmed(v, tip, InfoOf(tx), e.blockNumber, e.blockHash);
      if confirmed != Accepted then confirmed
      else if e.order !in tx.value.inputs then Rejected("transaction does not spend the order cell")
      else if rows[e.order].ownerLockHash !in tx.value.info.inputLockHashes then
        Rejected("spend is not authorized by the maker lock")
      else Accepted
  }

  function VerifyTradeConfirmed(v: Verification, tip: nat, tx: Option<SpendTx>, rows: Rows,
                                e: TradeConfirmed): Verdict
  {
    if e.confirmedAt != e.blockNumber then Rejected("confirmed block disagrees with event block")
    else if |{e.buy, e.sell} * rows.Keys| != 2 then Accepted
    else if e.buy !in rows || e.sell !in rows || rows[e.buy].direction != Bid || rows[e.sell].direction != Ask then
      Rejected("orders are not a buy/sell pair")
    else
      var buy, sell := rows[e.buy], rows[e.sell];
      var confirmed := RequireConfirmed(v, tip, InfoOf(tx), e.blockNumber, e.blockHash);
      if confirmed != Accepted then confirmed
      else if e.buy !in tx.value.inputs || e.sell !in tx.value.inputs then
        Rejected("settlement does not spend both orders")
      else if e.buyer == buy.ownerLockHash && e.seller == sell.ownerLockHash && e.asset == sell.asset
              && e.amount == sell.amount && e.price == sell.price then Accepted
      else Rejected("trade fields differ from the matched orders")
  }

  // The node has the transaction, in the block the event names.
  predicate Known(tx: Option<SpendTx>, blockNumber: nat, blockHash: Hash) {
    tx.Some? && tx.value.info.committed && tx.value.info.blockHash == blockHash
    && tx.value.info.blockNumber == blockNumber
  }

  // The answer to a cancellation, over all inputs: an unknown order passes, a shallow transaction is put off,
  // and otherwise the transaction must spend the order with its maker's lock among the inputs.
  lemma CancelVerdicts(v: Verification, tip: nat, tx: Option<SpendTx>, rows: Rows, e: OrderCancelled)
    ensures var verdict := VerifyOrderCancelled(v, tip, tx, rows, e);
      var deep := v.depth == 0 || tip + 1 >= e.blockNumber + v.depth;
      && (e.order !in rows ==> verdict == Accepted)
      && (e.order in rows ==>
            && (verdict == TooShallow <==> Known(tx, e.blockNumber, e.blockHash) && !deep)
            && (verdict == Accepted <==>
                  Known(tx, e.blockNumber, e.blockHash) && deep && e.order in tx.value.inputs
                  && rows[e.order].ownerLockHash in tx.value.info.inputLockHashes))
  {
    ConfirmationVerdicts(v, tip, InfoOf(tx), e.blockNumber, e.blockHash);
  }

  // What a trade event repeats of the two rows.
  predicate RepeatsRows(rows: Rows, e: TradeConfirmed)
    requires e.buy in rows && e.sell in rows
  {
    e.buyer == rows[e.buy].ownerLockHash && e.seller == rows[e.sell].ownerLockHash && e.asset == rows[e.sell].asset
    && e.amount == rows[e.sell].amount && e.price == rows[e.sell].price
  }

  predicate BuyAndSell(rows: Rows, e: TradeConfirmed) {
    e.buy in rows && e.sell in rows && rows[e.buy].direction == Bid && rows[e.sell].direction == Ask
  }

  // The answer to a trade, over all inputs: one with an order that is unknown, or the same twice, passes and is
  // left for the ingestion to ignore; a shallow transaction is put off; and otherwise the transaction must spend
  // a buy and a sell of which the event repeats makers and terms.
  lemma TradeVerdicts(v: Verification, tip: nat, tx: Option<SpendTx>, rows: Rows, e: TradeConfirmed)
    ensures var verdict := VerifyTradeConfirmed(v, tip, tx, rows, e);
      var deep := v.depth == 0 || tip + 1 >= e.blockNumber + v.depth;
      if e.confirmedAt != e.blockNumber then verdict.Rejected?
      else if e.buy == e.sell || e.buy !in rows || e.sell !in rows then verdict == Accepted
      else if !BuyAndSell(rows, e) then verdict.Rejected?
      else
        && (verdict == TooShallow <==> Known(tx, e.blockNumber, e.blockHash) && !deep)
        && (verdict == Accepted <==>
              Known(tx, e.blockNumber, e.blockHash) && deep && e.buy in tx.value.inputs && e.sell in tx.value.inputs
              && RepeatsRows(rows, e))
  {
    PairPresent(e.buy, e.sell, rows.Keys);
    ConfirmationVerdicts(v, tip, InfoOf(tx), e.blockNumber, e.blockHash);
  }

  // ---- A spending transaction on the chain ----

  // What the node reports about a transaction, and that the order lock's groups all accepted it.
  ghost predicate OnChain(hash: Hasher, dex: ScriptId, tx: Tx, spend: SpendTx) {
    && AllGroupsAccept(hash, dex, tx)
    && |spend.inputs| == |tx.inputs| == |spend.info.inputLockHashes| && spend.info.outputs == tx.outputs
    && (forall i :: 0 <= i < |tx.inputs| ==> spend.info.inputLockHashes[i] == hash(tx.inputs[i].lock))
    && (forall i, j :: 0 <= i < j < |tx.inputs| ==> spend.inputs[i] != spend.inputs[j])
  }

  // Every recorded order among the inputs was verified when it was recorded.
  ghost predicate RowsBacked(hash: Hasher, dex: ScriptId, tx: Tx, spend: SpendTx, rows: Rows)
    requires |spend.inputs| == |tx.inputs|
  {
    forall i :: 0 <= i < |tx.inputs| && spend.inputs[i] in rows ==>
      Backed(hash, dex, rows[spend.inputs[i]], tx.inputs[i])
  }

  ghost predicate SpendsAt(spend: SpendTx, p: OutPoint, i: nat) {
    i < |spend.inputs| && spend.inputs[i] == p
  }

  function TermsOf(row: OrderDoc): Terms {
    Terms(if row.direction == Ask then Sell else Buy, row.ownerLockHash, row.asset, row.amount, row.price)
  }

  lemma MakerSeen(hash: Hasher, dex: ScriptId, tx: Tx, spend: SpendTx, maker: Hash)
    requires OnChain(hash, dex, tx, spend)
    ensures maker in spend.info.inputLockHashes <==> MakerPresent(hash, tx, maker)
  {
    if maker in spend.info.inputLockHashes {
      var i :| 0 <= i < |tx.inputs| && spend.info.inputLockHashes[i] == maker;
      assert hash(tx.inputs[i].lock) == maker;
    }
    assert forall i :: 0 <= i < |tx.inputs| ==> hash(tx.inputs[i].lock) == spend.info.inputLockHashes[i];
  }

  // An accepted spend of a recorded order is a cancellation exactly when the maker's lock is among the
  // inputs, and otherwise a fill against exactly one other order.
  lemma SpendIsCancelOrFill(hash: Hasher, dex: ScriptId, tx: Tx, spend: SpendTx, i: nat, row: OrderDoc)
    requires OnChain(hash, dex, tx, spend) && i < |tx.inputs| && Backed(hash, dex, row, tx.inputs[i])
    ensures row.ownerLockHash in spend.info.inputLockHashes <==> Cancels(hash, tx, i)
    ensures row.ownerLockHash !in spend.info.inputLockHashes <==>
      exists j :: 0 <= j < |tx.inputs|
        && (if row.direction == Bid then Settles(hash, tx, i, j) else Settles(hash, tx, j, i))
  {
    DexPositions(hash, dex, tx, i);
    MakerSeen(hash, dex, tx, spend, row.ownerLockHash);
  }

  // ---- What the checks establish ----

  ghost predicate DeepEnough(v: Verification, tip: nat, tx: ChainTx, blockNumber: nat, blockHash: Hash) {
    && tx.committed && blockHash == tx.blockHash && blockNumber == tx.blockNumber
    && (v.depth == 0 || tip + 1 >= tx.blockNumber + v.depth)
  }

  lemma SpentAt(spend: SpendTx, p: OutPoint) returns (i: nat)
    requires p in spend.inputs
    ensures SpendsAt(spend, p, i)
  {
    i :| i < |spend.inputs| && spend.inputs[i] == p;
  }

  // The transaction spends the order as a cancellation.
  ghost predicate Refunding(hash: Hasher, tx: Tx, spend: SpendTx, order: OutPoint)
    requires |spend.inputs| == |tx.inputs|
  {
    exists i :: SpendsAt(spend, order, i) && Cancels(hash, tx, i)
  }

  lemma SpentIffRefunding(hash: Hasher, dex: ScriptId, tx: Tx, spend: SpendTx, rows: Rows, order: OutPoint)
    requires OnChain(hash, dex, tx, spend) && RowsBacked(hash, dex, tx, spend, rows) && order in rows
    ensures order in spend.inputs && rows[order].ownerLockHash in spend.info.inputLockHashes
      <==> Refunding(hash, tx, spend, order)
  {
    if order in spend.inputs {
      var i := SpentAt(spend, order);
      SpendIsCancelOrFill(hash, dex, tx, spend, i, rows[order]);
    }
  }

  // A cancellation event of a recorded order verifies exactly when its transaction is final and refunds the maker.
  lemma CancelVerifiedIffRefunded(hash: Hasher, v: Verification, tip: nat, tx: Tx, spend: SpendTx, rows: Rows,
                                  e: OrderCancelled)
    requires OnChain(hash, v.dex, tx, spend) && RowsBacked(hash, v.dex, tx, spend, rows) && e.order in rows
    ensures VerifyOrderCancelled(v, tip, Some(spend), rows, e) == Accepted <==>
      (DeepEnough(v, tip, spend.info, e.blockNumber, e.blockHash) && Refunding(hash, tx, spend, e.order))
  {
    SpentIffRefunding(hash, v.dex, tx, spend, rows, e.order);
  }

  // The transaction spends both orders, the one settled against the other.
  ghost predicate Fills(hash: Hasher, tx: Tx, spend: SpendTx, buy: OutPoint, sell: OutPoint)
    requires |spend.inputs| == |tx.inputs|
  {
    exists b, s :: SpendsAt(spend, buy, b) && SpendsAt(spend, sell, s) && Settles(hash, tx, b, s)
  }

  lemma BothSpentSettles(hash: Hasher, dex: ScriptId, tx: Tx, b: nat, s: nat)
    requires AllGroupsAccept(hash, dex, tx) && b < |tx.inputs| && s < |tx.inputs| && b != s
    requires tx.inputs[b].lock.Id() == tx.inputs[s].lock.Id() == dex
    requires ParseOrderArgs(tx.inputs[b].lock.args).Ok? && ParseOrderArgs(tx.inputs[b].lock.args).value.side == Buy
    ensures Settles(hash, tx, b, s)
  {
    DexPositions(hash, dex, tx, b);
    DexPositions(hash, dex, tx, s);
  }

  lemma BothSpentIffFilled(hash: Hasher, dex: ScriptId, tx: Tx, spend: SpendTx, rows: Rows, buy: OutPoint,
                           sell: OutPoint)
    requires OnChain(hash, dex, tx, spend) && RowsBacked(hash, dex, tx, spend, rows)
    requires buy in rows && sell in rows && buy != sell
    ensures Fills(hash, tx, spend, buy, sell) <==>
      (rows[buy].direction == Bid && rows[sell].direction == Ask && buy in spend.inputs && sell in spend.inputs)
  {
    if buy in spend.inputs && sell in spend.inputs {
      var b := SpentAt(spend, buy);
      var s := SpentAt(spend, sell);
      assert Backed(hash, dex, rows[buy], tx.inputs[b]) && Backed(hash, dex, rows[sell], tx.inputs[s]);
      if rows[buy].direction == Bid {
        BothSpentSettles(hash, dex, tx, b, s);
      }
    }
  }

  lemma TradeCheckMeaning(v: Verification, tip: nat, spend: SpendTx, rows: Rows, e: TradeConfirmed)
    requires e.buy in rows && e.sell in rows && e.buy != e.sell
    ensures VerifyTradeConfirmed(v, tip, Some(spend), rows, e) == Accepted <==>
      (e.confirmedAt == e.blockNumber && DeepEnough(v, tip, spend.info, e.blockNumber, e.blockHash)
       && rows[e.buy].direction == Bid && rows[e.sell].direction == Ask && e.buy in spend.inputs
         && e.sell in spend.inputs
       && e.buyer == rows[e.buy].ownerLockHash && e.seller == rows[e.sell].ownerLockHash
       && e.asset == rows[e.sell].asset && e.amount == rows[e.sell].amount && e.price == rows[e.sell].price)
  {
    assert {e.buy, e.sell} * rows.Keys == {e.buy, e.sell};
  }

  // A trade event of two recorded orders verifies exactly when its transaction is final, settles the one
  // against the other, and the event repeats the terms and makers the lock enforced.
  lemma TradeVerifiedIffSettled(hash: Hasher, v: Verification, tip: nat, tx: Tx, spend: SpendTx, rows: Rows,
                                e: TradeConfirmed)
    requires OnChain(hash, v.dex, tx, spend) && RowsBacked(hash, v.dex, tx, spend, rows)
    requires e.buy in rows && e.sell in rows && e.buy != e.sell
    ensures VerifyTradeConfirmed(v, tip, Some(spend), rows, e) == Accepted <==>
      (e.confirmedAt == e.blockNumber && DeepEnough(v, tip, spend.info, e.blockNumber, e.blockHash)
       && Fills(hash, tx, spend, e.buy, e.sell)
       && e.buyer == rows[e.buy].ownerLockHash && e.seller == rows[e.sell].ownerLockHash
       && e.asset == rows[e.sell].asset && e.amount == rows[e.sell].amount && e.price == rows[e.sell].price)
  {
    TradeCheckMeaning(v, tip, spend, rows, e);
    BothSpentIffFilled(hash, v.dex, tx, spend, rows, e.buy, e.sell);
  }

  // What the lock's two payout conditions say in terms of the recorded rows.
  ghost predicate RowsPaid(hash: Hasher, tx: Tx, buy: OrderDoc, sell: OrderDoc) {
    && buy.asset == sell.asset && buy.amount == sell.amount && buy.price == sell.price
    && sell.capacity + sell.price <= Sum(tx.outputs, PlainPaid(hash, sell.ownerLockHash))
    && Sum(tx.outputs, TokensPaid(hash, TermsOf(buy))) == buy.amount
    && buy.capacity - buy.price - MAX_SETTLEMENT_FEE <= Sum(tx.outputs, TokenCapacity(hash, TermsOf(buy)))
         <= buy.capacity - buy.price
  }

  lemma SettledPays(hash: Hasher, dex: ScriptId, tx: Tx, b: nat, s: nat, buy: OrderDoc, sell: OrderDoc)
    requires b < |tx.inputs| && s < |tx.inputs| && Settles(hash, tx, b, s)
    requires Backed(hash, dex, buy, tx.inputs[b]) && Backed(hash, dex, sell, tx.inputs[s])
    ensures RowsPaid(hash, tx, buy, sell)
  {
    assert BuyerPaid(hash, tx, b, TermsOf(buy)) && SellerPaid(hash, tx, s, TermsOf(sell));
  }

  lemma FilledPays(hash: Hasher, dex: ScriptId, tx: Tx, spend: SpendTx, rows: Rows, buy: OutPoint, sell: OutPoint)
    requires |spend.inputs| == |tx.inputs| && RowsBacked(hash, dex, tx, spend, rows)
    requires buy in rows && sell in rows && Fills(hash, tx, spend, buy, sell)
    ensures RowsPaid(hash, tx, rows[buy], rows[sell])
  {
    var b, s :| SpendsAt(spend, buy, b) && SpendsAt(spend, sell, s) && Settles(hash, tx, b, s);
    SettledPays(hash, dex, tx, b, s, rows[buy], rows[sell]);
  }

  // A trade the projection records has been paid on the chain: the seller has price and deposit in plain
  // CKB, the buyer exactly the tokens and all but the price and a bounded fee of the deposit.
  lemma RecordedTradeIsPaid(hash: Hasher, v: Verification, tip: nat, tx: Tx, spend: SpendTx, rows: Rows,
                            e: TradeConfirmed)
    requires OnChain(hash, v.dex, tx, spend) && RowsBacked(hash, v.dex, tx, spend, rows)
    requires e.buy in rows && e.sell in rows && e.buy != e.sell
    requires VerifyTradeConfirmed(v, tip, Some(spend), rows, e) == Accepted
    ensures RowsPaid(hash, tx, rows[e.buy], rows[e.sell])
    ensures e.buyer == rows[e.buy].ownerLockHash && e.seller == rows[e.sell].ownerLockHash
    ensures e.amount == rows[e.buy].amount && e.price == rows[e.buy].price && e.asset == rows[e.buy].asset
  {
    TradeVerifiedIffSettled(hash, v, tip, tx, spend, rows, e);
    FilledPays(hash, v.dex, tx, spend, rows, e.buy, e.sell);
  }

  lemma OnlyTwo(dex: ScriptId, inputs: seq<Cell>, b: nat, s: nat)
    requires b < |inputs| && s < |inputs| && b != s && inputs[b].lock.Id() == inputs[s].lock.Id() == dex
    requires |DexIndices(dex, inputs)| <= 2
    ensures forall i :: 0 <= i < |inputs| && inputs[i].lock.Id() == dex ==> i == b || i == s
  {
    AllDexIndices(dex, inputs);
    var d := DexIndices(dex, inputs);
    assert b in d && s in d;
  }

  lemma SettlesTwo(hash: Hasher, dex: ScriptId, tx: Tx, b: nat, s: nat)
    requires AllGroupsAccept(hash, dex, tx) && b < |tx.inputs| && s < |tx.inputs| && Settles(hash, tx, b, s)
    requires tx.inputs[b].lock.Id() == tx.inputs[s].lock.Id() == dex
    ensures b != s && |DexIndices(dex, tx.inputs)| == 2
  {
    SettlesIsPair(hash, tx, b, s);
    PairSettles(hash, dex, tx, b, s);
  }

  // With two orders among the inputs the maker of neither is: nothing is cancelled.
  lemma PairCancelsNothing(hash: Hasher, tx: Tx, b: nat, s: nat)
    requires b < |tx.inputs| && s < |tx.inputs| && Settles(hash, tx, b, s)
    ensures !Cancels(hash, tx, b) && !Cancels(hash, tx, s)
  {
  }

  // An accepted transaction that settles two orders has no third order among its inputs.
  lemma SettledIsAll(hash: Hasher, dex: ScriptId, tx: Tx, b: nat, s: nat, i: nat)
    requires AllGroupsAccept(hash, dex, tx) && b < |tx.inputs| && s < |tx.inputs| && Settles(hash, tx, b, s)
    requires tx.inputs[b].lock.Id() == tx.inputs[s].lock.Id() == dex
    requires i < |tx.inputs| && tx.inputs[i].lock.Id() == dex
    ensures (i == b || i == s) && !Cancels(hash, tx, i)
  {
    SettlesTwo(hash, dex, tx, b, s);
    OnlyTwo(dex, tx.inputs, b, s);
    PairCancelsNothing(hash, tx, b, s);
  }

  lemma FilledAt(hash: Hasher, tx: Tx, spend: SpendTx, buy: OutPoint, sell: OutPoint) returns (b: nat, s: nat)
    requires |spend.inputs| == |tx.inputs| && Fills(hash, tx, spend, buy, sell)
    ensures SpendsAt(spend, buy, b) && SpendsAt(spend, sell, s) && Settles(hash, tx, b, s)
  {
    b, s :| SpendsAt(spend, buy, b) && SpendsAt(spend, sell, s) && Settles(hash, tx, b, s);
  }

  lemma RowRunsDex(hash: Hasher, dex: ScriptId, tx: Tx, spend: SpendTx, rows: Rows, p: OutPoint, i: nat)
    requires |spend.inputs| == |tx.inputs| && RowsBacked(hash, dex, tx, spend, rows) && p in rows
      && SpendsAt(spend, p, i)
    ensures tx.inputs[i].lock.Id() == dex
  {
  }

  // A filling transaction fills one pair, and cancels nothing.
  lemma FillsOnePair(hash: Hasher, dex: ScriptId, tx: Tx, spend: SpendTx, rows: Rows, buy: OutPoint, sell: OutPoint,
                     p: OutPoint, i: nat)
    requires OnChain(hash, dex, tx, spend) && RowsBacked(hash, dex, tx, spend, rows)
    requires buy in rows && sell in rows && Fills(hash, tx, spend, buy, sell)
    requires p in rows && SpendsAt(spend, p, i)
    ensures (p == buy || p == sell) && !Cancels(hash, tx, i)
  {
    var b, s := FilledAt(hash, tx, spend, buy, sell);
    RowRunsDex(hash, dex, tx, spend, rows, buy, b);
    RowRunsDex(hash, dex, tx, spend, rows, sell, s);
    RowRunsDex(hash, dex, tx, spend, rows, p, i);
    SettledIsAll(hash, dex, tx, b, s, i);
  }

  // A transaction verifies at most one pair as a trade, and never also as a cancellation of a recorded order.
  lemma SpendVerifiesOnce(hash: Hasher, v: Verification, tip: nat, tx: Tx, spend: SpendTx, rows: Rows,
                          e: TradeConfirmed, f: TradeConfirmed, c: OrderCancelled)
    requires OnChain(hash, v.dex, tx, spend) && RowsBacked(hash, v.dex, tx, spend, rows)
    requires e.buy in rows && e.sell in rows && e.buy != e.sell && f.buy in rows && f.sell in rows && f.buy != f.sell
    requires VerifyTradeConfirmed(v, tip, Some(spend), rows, e) == Accepted && c.order in rows
    ensures VerifyTradeConfirmed(v, tip, Some(spend), rows, f) == Accepted ==> f.buy == e.buy && f.sell == e.sell
    ensures VerifyOrderCancelled(v, tip, Some(spend), rows, c) != Accepted
  {
    TradeVerifiedIffSettled(hash, v, tip, tx, spend, rows, e);
    if VerifyTradeConfirmed(v, tip, Some(spend), rows, f) == Accepted {
      TradeCheckMeaning(v, tip, spend, rows, f);
      TradeCheckMeaning(v, tip, spend, rows, e);
      var b := SpentAt(spend, f.buy);
      var s := SpentAt(spend, f.sell);
      FillsOnePair(hash, v.dex, tx, spend, rows, e.buy, e.sell, f.buy, b);
      FillsOnePair(hash, v.dex, tx, spend, rows, e.buy, e.sell, f.sell, s);
    }
    if VerifyOrderCancelled(v, tip, Some(spend), rows, c) == Accepted {
      CancelVerifiedIffRefunded(hash, v, tip, tx, spend, rows, c);
      var i :| SpendsAt(spend, c.order, i) && Cancels(hash, tx, i);
      FillsOnePair(hash, v.dex, tx, spend, rows, e.buy, e.sell, c.order, i);
    }
  }
}
