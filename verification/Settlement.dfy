// The off-chain builders: event verification, the settlement and cancellation transactions and the
// UI's order cells, tied to what the order lock accepts.
module Settlement {
  import opened Bytes
  import opened Cells
  import opened Sums
  import opened OrderArgs
  import opened OrderLock

  // An order row of the projection, with its decimal strings read as integers.
  datatype OrderDoc = OrderDoc(
    lockScript: Script, typeScript: Option<Script>, cellData: seq<Byte>, capacity: nat,
    ownerLock: Script, ownerLockHash: Hash, direction: Direction, price: nat, amount: nat, asset: Hash)

  // ---- Verification of an order-confirmed event against the chain ----

  datatype ChainTx = ChainTx(
    committed: bool, blockNumber: nat, blockHash: Hash, txIndex: Option<nat>, outputs: seq<Cell>,
    inputLockHashes: seq<Hash>)

  datatype Verification = Verification(dex: ScriptId, depth: nat, supported: set<Hash>)

  datatype OrderConfirmed = OrderConfirmed(
    index: nat, blockNumber: nat, blockHash: Hash, order: OrderDoc, orderBlock: nat, orderTxIndex: nat)

  datatype Verdict = Accepted | TooShallow | Rejected(reason: string)

  function RequireConfirmed(v: Verification, tip: nat, tx: Option<ChainTx>, blockNumber: nat,
                            blockHash: Hash): Verdict
  {
    if tx.None? || !tx.value.committed then Rejected("transaction is not committed")
    else if blockHash != tx.value.blockHash then Rejected("block hash does not match the chain")
    else if blockNumber != tx.value.blockNumber then Rejected("block number does not match the chain")
    else
      var confirmations := if tip >= tx.value.blockNumber then tip - tx.value.blockNumber + 1 else 0;
      if confirmations < v.depth then TooShallow else Accepted
  }

  // The row repeats the terms in the lock args.
  function VerifyTerms(v: Verification, decoded: DecodedDexOrderArgs, row: OrderDoc): Verdict {
    if decoded.direction != row.direction then Rejected("direction differs from lock args")
    else if decoded.pricePerToken != row.price then Rejected("price differs from lock args")
    else if decoded.tokenAmount != row.amount then Rejected("token amount differs from lock args")
    else if decoded.udtTypeHash != row.asset then Rejected("token type differs from lock args")
    else if decoded.makerLockHash != row.ownerLockHash then Rejected("maker differs from lock args")
    else if decoded.udtTypeHash !in v.supported then Rejected("token is not a supported manifest asset")
    else Accepted
  }

  // A sell holds the declared tokens; a buy holds no typed cell.
  function VerifyHolding(hash: Hasher, decoded: DecodedDexOrderArgs, output: Cell, row: OrderDoc): Verdict {
    if decoded.direction == Ask then
      if TypeHash(hash, output) != Some(decoded.udtTypeHash) then Rejected("sell order lacks the declared token type")
      else if row.typeScript.None? || hash(row.typeScript.value) != decoded.udtTypeHash then
        Rejected("event type script differs from the chain")
      else if |output.data| < 16 || FromLE(output.data[..16]) != decoded.tokenAmount then
        Rejected("held token amount differs from lock args")
      else Accepted
    else if output.typ.Some? then Rejected("buy order must not carry a type script")
    else Accepted
  }

  function VerifyOrderConfirmed(hash: Hasher, v: Verification, tip: nat, tx: Option<ChainTx>,
                                e: OrderConfirmed): Verdict
  {
    var confirmed := RequireConfirmed(v, tip, tx, e.blockNumber, e.blockHash);
    if confirmed != Accepted then confirmed
    else if e.orderBlock != e.blockNumber then Rejected("order block number disagrees with event")
    else if tx.value.txIndex.Some? && e.orderTxIndex != tx.value.txIndex.value then
      Rejected("tx index does not match the chain")
    else if e.index >= |tx.value.outputs| then Rejected("output does not exist")
    else
      var output := tx.value.outputs[e.index];
      if output.lock.Id() != v.dex then Rejected("output is not locked by the configured DEX script")
      else if output.lock.args != e.order.lockScript.args then Rejected("lock args differ from the chain")
      else if output.data != e.order.cellData then Rejected("cell data differs from the chain")
      else if output.capacity != e.order.capacity then Rejected("capacity differs from the chain")
      else match DecodeDexOrderArgs(output.lock.args)
        case Err(_) => Rejected("undecodable order args")
        case Ok(decoded) =>
          var matched := VerifyTerms(v, decoded, e.order);
          if matched != Accepted then matched
          else
            var held := VerifyHolding(hash, decoded, output, e.order);
            if held != Accepted then held
            else if hash(e.order.ownerLock) != decoded.makerLockHash then
              Rejected("owner lock does not hash to the maker lock hash")
            else if decoded.makerLockHash !in tx.value.inputLockHashes then
              Rejected("maker did not fund the order transaction")
            else Accepted
  }

  // The part of a row that its output's own type and data decide.
  ghost predicate Holds(hash: Hasher, row: OrderDoc, cell: Cell) {
    && (row.direction == Bid ==> cell.typ.None?)
    && (row.direction == Ask ==> TypeHash(hash, cell) == Some(row.asset) && row.typeScript.Some?
                                 && hash(row.typeScript.value) == row.asset
                                 && |cell.data| >= 16 && Amount(cell.data) == row.amount)
  }

  // The row describes the on-chain cell in the contract's own terms.
  ghost predicate Backed(hash: Hasher, dex: ScriptId, row: OrderDoc, cell: Cell) {
    && cell.lock.Id() == dex && cell.lock.args == row.lockScript.args
    && ParseOrderArgs(cell.lock.args) ==
       Ok(Terms(if row.direction == Ask then Sell else Buy, row.ownerLockHash, row.asset, row.amount, row.price))
    && cell.capacity == row.capacity && cell.data == row.cellData
    && hash(row.ownerLock) == row.ownerLockHash && Holds(hash, row, cell)
  }

  lemma TermsMatch(v: Verification, decoded: DecodedDexOrderArgs, row: OrderDoc)
    ensures VerifyTerms(v, decoded, row) == Accepted <==>
      decoded == DecodedDexOrderArgs(row.ownerLockHash, row.direction, row.asset, row.amount, row.price)
        && row.asset in v.supported
  {
  }

  lemma HoldingMatches(hash: Hasher, decoded: DecodedDexOrderArgs, output: Cell, row: OrderDoc)
    requires decoded.direction == row.direction && decoded.udtTypeHash == row.asset && decoded.tokenAmount == row.amount
    ensures VerifyHolding(hash, decoded, output, row) == Accepted <==> Holds(hash, row, output)
  {
  }

  lemma FinalMeaning(v: Verification, tip: nat, tx: ChainTx, blockNumber: nat, blockHash: Hash)
    ensures RequireConfirmed(v, tip, Some(tx), blockNumber, blockHash) == Accepted <==>
      tx.committed && blockHash == tx.blockHash && blockNumber == tx.blockNumber
      && (v.depth == 0 || tip + 1 >= tx.blockNumber + v.depth)
  {
  }

  // The confirmation check accepts, asks to wait, or refuses: it asks to wait exactly when nothing but
  // confirmations is missing.
  lemma ConfirmationVerdicts(v: Verification, tip: nat, tx: Option<ChainTx>, blockNumber: nat, blockHash: Hash)
    ensures var known := tx.Some? && tx.value.committed && tx.value.blockHash == blockHash
                         && tx.value.blockNumber == blockNumber;
      var deep := v.depth == 0 || tip + 1 >= blockNumber + v.depth;
      var verdict := RequireConfirmed(v, tip, tx, blockNumber, blockHash);
      && (verdict == Accepted <==> known && deep) && (verdict == TooShallow <==> known && !deep)
      && (verdict.Rejected? <==> !known)
  {
  }

  lemma TermsNeverWait(v: Verification, decoded: DecodedDexOrderArgs, row: OrderDoc)
    ensures VerifyTerms(v, decoded, row) != TooShallow
  {
  }

  lemma HoldingNeverWaits(hash: Hasher, decoded: DecodedDexOrderArgs, output: Cell, row: OrderDoc)
    ensures VerifyHolding(hash, decoded, output, row) != TooShallow
  {
  }

  // An order event is put off exactly when its transaction is known and not deep enough yet; whatever else
  // is wrong with an event is only looked at then, and refuses it.
  lemma PutOffIffShallow(hash: Hasher, v: Verification, tip: nat, tx: Option<ChainTx>, e: OrderConfirmed)
    ensures VerifyOrderConfirmed(hash, v, tip, tx, e) == TooShallow <==>
      tx.Some? && tx.value.committed && tx.value.blockHash == e.blockHash && tx.value.blockNumber == e.blockNumber
      && v.depth != 0 && tip + 1 < e.blockNumber + v.depth
  {
    ConfirmationVerdicts(v, tip, tx, e.blockNumber, e.blockHash);
    if tx.Some? && e.index < |tx.value.outputs| {
      var output := tx.value.outputs[e.index];
      var decoded := DecodeDexOrderArgs(output.lock.args);
      if decoded.Ok? {
        TermsNeverWait(v, decoded.value, e.order);
        HoldingNeverWaits(hash, decoded.value, output, e.order);
      }
    }
  }

  // Verification accepts exactly the deep, canonical, supported, maker-funded orders whose rows are backed.
  lemma VerifiedIffBacked(hash: Hasher, v: Verification, tip: nat, tx: ChainTx, e: OrderConfirmed)
    ensures VerifyOrderConfirmed(hash, v, tip, Some(tx), e) == Accepted <==>
      && tx.committed && e.blockHash == tx.blockHash && e.blockNumber == tx.blockNumber == e.orderBlock
      && (v.depth == 0 || tip + 1 >= tx.blockNumber + v.depth)
      && (tx.txIndex.Some? ==> e.orderTxIndex == tx.txIndex.value)
      && e.index < |tx.outputs| && Backed(hash, v.dex, e.order, tx.outputs[e.index])
      && e.order.asset in v.supported && e.order.ownerLockHash in tx.inputLockHashes
  {
    FinalMeaning(v, tip, tx, e.blockNumber, e.blockHash);
    if e.index < |tx.outputs| {
      var output := tx.outputs[e.index];
      var decoded := DecodeDexOrderArgs(output.lock.args);
      DecodersAgree(output.lock.args);
      if decoded.Ok? {
        TermsMatch(v, decoded.value, e.order);
        if VerifyTerms(v, decoded.value, e.order) == Accepted {
          HoldingMatches(hash, decoded.value, output, e.order);
        }
      }
    }
  }

  // ---- Splitting the buy order's capacity ----

  datatype Allocation = FeeAboveCap | Insufficient | Allocated(tokenCapacity: nat, fee: nat)

  // Whatever the price and the fee leave goes to the buyer's token cell, never to the miner.
  function AllocateSettlementCapacity(buyCapacity: nat, price: nat, minimum: nat, fee: nat): (r: Allocation)
    ensures r.Allocated? <==> fee <= MAX_SETTLEMENT_FEE && price + minimum + fee <= buyCapacity
    ensures r.Allocated? ==>
      price + r.tokenCapacity + r.fee == buyCapacity && r.fee == fee && r.tokenCapacity >= minimum
  {
    if fee > MAX_SETTLEMENT_FEE then FeeAboveCap
    else
      var tokenCapacity := buyCapacity - price - fee;
      if tokenCapacity < minimum then Insufficient else Allocated(tokenCapacity, fee)
  }

  // ---- Building settlements ----

  // An output before serialization: its capacity may not fit u64.
  datatype Output = Output(capacity: nat, lock: Script, typ: Option<Script>, data: seq<Byte>)

  ghost predicate Fits(o: Output) {
    o.capacity <= U64_MAX
  }

  function AsCell(o: Output): Cell
    requires Fits(o)
  {
    Cell(o.capacity, o.lock, o.typ, o.data)
  }

  // Minimum capacity of a cell from its lock, its type and the length of its data.
  type Occupied = (Script, Option<Script>, nat) -> nat

  datatype TradeError = UnsupportedAsset | WrongDirections | TermsDiffer | FeeTooHigh | InsufficientBuyCapacity

  datatype Built = Built(payment: Output, tokens: Output)

  // The outputs of the settlement the bot sends for a buy and a sell row.
  function ExecuteTrade(supported: set<Hash>, buy: OrderDoc, sell: OrderDoc, occupied: Occupied,
                        fee: nat): Result<Built, TradeError>
  {
    if buy.asset !in supported then Err(UnsupportedAsset)
    else if buy.direction != Bid || sell.direction != Ask then Err(WrongDirections)
    else if buy.asset != sell.asset || buy.amount != sell.amount || buy.price != sell.price then Err(TermsDiffer)
    else
      var minimum := occupied(buy.ownerLock, sell.typeScript, |sell.cellData|);
      match AllocateSettlementCapacity(buy.capacity, sell.price, minimum, fee)
      case FeeAboveCap => Err(FeeTooHigh)
      case Insufficient => Err(InsufficientBuyCapacity)
      case Allocated(tokenCapacity, _) =>
        Ok(Built(Output(sell.capacity + sell.price, sell.ownerLock, None, []),
                 Output(tokenCapacity, buy.ownerLock, sell.typeScript, sell.cellData)))
  }

  predicate MatchingRows(buy: OrderDoc, sell: OrderDoc) {
    buy.asset == sell.asset && buy.amount == sell.amount && buy.price == sell.price
  }

  // When the bot can trade two rows, why it refuses otherwise, and what it pays.
  lemma TradeVerdicts(supported: set<Hash>, buy: OrderDoc, sell: OrderDoc, occupied: Occupied, fee: nat)
    ensures var r := ExecuteTrade(supported, buy, sell, occupied, fee);
      var sides := buy.direction == Bid && sell.direction == Ask;
      var room := buy.price + occupied(buy.ownerLock, sell.typeScript, |sell.cellData|) + fee <= buy.capacity;
      && (r == Err(UnsupportedAsset) <==> buy.asset !in supported)
      && (r == Err(WrongDirections) <==> buy.asset in supported && !sides)
      && (r == Err(TermsDiffer) <==> buy.asset in supported && sides && !MatchingRows(buy, sell))
      && (r == Err(FeeTooHigh) <==> buy.asset in supported && sides && MatchingRows(buy, sell) && fee > 10_000)
      && (r == Err(InsufficientBuyCapacity) <==>
            buy.asset in supported && sides && MatchingRows(buy, sell) && fee <= 10_000 && !room)
      && (r.Ok? ==>
            r.value.payment == Output(sell.capacity + sell.price, sell.ownerLock, None, [])
            && r.value.tokens.capacity == buy.capacity - buy.price - fee
            && r.value.tokens.lock == buy.ownerLock && r.value.tokens.typ == sell.typeScript
            && r.value.tokens.data == sell.cellData)
  {
  }

  lemma DexOfTwo(dex: ScriptId, a: Cell, b: Cell)
    requires a.lock.Id() == b.lock.Id() == dex
    ensures DexIndices(dex, [a, b]) == [0, 1]
  {
    assert [a, b][..1] == [a];
    assert [a][..0] == [];
    assert DexIndices(dex, [a]) == [0];
  }

  ghost predicate NoMakerInput(hash: Hasher, maker: Hash, buyCell: Cell, sellCell: Cell) {
    hash(buyCell.lock) != maker && hash(sellCell.lock) != maker
  }

  // The two-output settlement is accepted by both groups unless a maker's lock is itself one of the
  // two order locks, or the sell cell's data is too short to hold an amount.
  lemma TwoOutputSettlement(hash: Hasher, dex: ScriptId, buyCell: Cell, sellCell: Cell, buy: Terms, sell: Terms,
                            payment: Cell, tokens: Cell, fee: nat)
    requires buyCell.lock.Id() == sellCell.lock.Id() == dex
    requires ParseOrderArgs(buyCell.lock.args) == Ok(buy) && buy.side == Buy
    requires ParseOrderArgs(sellCell.lock.args) == Ok(sell) && sell.side == Sell
    requires SameDeal(buy, sell) && buyCell.typ.None? && TypeHash(hash, sellCell) == Some(sell.asset)
    requires |sellCell.data| >= 16 ==> Amount(sellCell.data) == sell.amount
    requires hash(payment.lock) == sell.maker && payment.typ.None?
    requires payment.capacity == sellCell.capacity + sell.price
    requires hash(tokens.lock) == buy.maker && TypeHash(hash, tokens) == Some(sell.asset)
      && tokens.data == sellCell.data
    requires buy.price + tokens.capacity + fee == buyCell.capacity && fee <= MAX_SETTLEMENT_FEE
    ensures AllGroupsAccept(hash, dex, Tx([buyCell, sellCell], [payment, tokens])) <==>
      |sellCell.data| >= 16 && NoMakerInput(hash, buy.maker, buyCell, sellCell)
        && NoMakerInput(hash, sell.maker, buyCell, sellCell)
  {
    var tx := Tx([buyCell, sellCell], [payment, tokens]);
    DexOfTwo(dex, buyCell, sellCell);
    VerdictsAddUp(hash, dex, tx);
    SumTwo(payment, tokens, PlainPaid(hash, sell.maker));
    SumTwo(payment, tokens, TokensPaid(hash, buy));
    SumTwo(payment, tokens, TokenCapacity(hash, buy));
    assert MakerPresent(hash, tx, buy.maker) == !NoMakerInput(hash, buy.maker, buyCell, sellCell) by {
      assert tx.inputs[0] == buyCell && tx.inputs[1] == sellCell;
    }
    assert MakerPresent(hash, tx, sell.maker) == !NoMakerInput(hash, sell.maker, buyCell, sellCell) by {
      assert tx.inputs[0] == buyCell && tx.inputs[1] == sellCell;
    }
    assert forall j :: 0 <= j < 2 ==> tx.outputs[j] == payment || tx.outputs[j] == tokens;
    assert tx.outputs[1] == tokens;
    assert !Settles(hash, tx, 1, 0);
  }

  // Whenever its payment fits u64, the built transaction is accepted by both groups exactly when no input
  // carries a maker's lock.
  ghost predicate TradeAccepted(hash: Hasher, dex: ScriptId, built: Built, buy: OrderDoc, sell: OrderDoc,
                                buyCell: Cell, sellCell: Cell)
  {
    Fits(built.tokens)
    && (Fits(built.payment) ==>
          (AllGroupsAccept(hash, dex, Tx([buyCell, sellCell], [AsCell(built.payment), AsCell(built.tokens)])) <==>
             NoMakerInput(hash, buy.ownerLockHash, buyCell, sellCell)
             && NoMakerInput(hash, sell.ownerLockHash, buyCell, sellCell)))
  }

  // End to end: rows that passed verification settle, and what goes in comes out plus the fee.
  lemma TradeIsAccepted(hash: Hasher, dex: ScriptId, supported: set<Hash>, buy: OrderDoc, sell: OrderDoc,
                        buyCell: Cell, sellCell: Cell, occupied: Occupied, fee: nat)
    requires Backed(hash, dex, buy, buyCell) && Backed(hash, dex, sell, sellCell)
    requires ExecuteTrade(supported, buy, sell, occupied, fee).Ok?
    ensures var built := ExecuteTrade(supported, buy, sell, occupied, fee).value;
      && Fits(built.tokens)
      && (Fits(built.payment) <==> sellCell.capacity + sell.price <= U64_MAX)
      && buyCell.capacity + sellCell.capacity == built.payment.capacity + built.tokens.capacity + fee
      && built.tokens.capacity >= occupied(buy.ownerLock, built.tokens.typ, |built.tokens.data|)
      && Amount(built.tokens.data) == Amount(sellCell.data)
      && TradeAccepted(hash, dex, built, buy, sell, buyCell, sellCell)
  {
    var built := ExecuteTrade(supported, buy, sell, occupied, fee).value;
    if Fits(built.payment) {
      TwoOutputSettlement(hash, dex, buyCell, sellCell, ParseOrderArgs(buyCell.lock.args).value,
                          ParseOrderArgs(sellCell.lock.args).value, AsCell(built.payment), AsCell(built.tokens), fee);
    }
  }

  // The fill helper reads both cells from the chain. Its balance reader takes whatever it finds in the
  // first sixteen bytes, so it does not insist that there are sixteen.
  function UdtBalance(data: seq<Byte>): nat {
    FromLE(if |data| < 16 then data else data[..16])
  }

  datatype FillError = NotDex | BadArgs | WrongSides | Mismatch | BuyHasType | SellType | SellAmount | PaymentOverflow
                     | NoMakerLock | CannotAllocate

  function FillOrder(hash: Hasher, dex: ScriptId, buyCell: Cell, sellCell: Cell, buyerLock: Script,
                     sellerLock: Script, occupied: Occupied, fee: nat): Result<(Cell, Cell), FillError>
  {
    if buyCell.lock.Id() != dex || sellCell.lock.Id() != dex then Err(NotDex)
    else match (ReadOrderTerms(buyCell.lock.args), ReadOrderTerms(sellCell.lock.args))
      case (Ok(buy), Ok(sell)) =>
        if buy.side != SIDE_BUY || sell.side != SIDE_SELL then Err(WrongSides)
        else if buy.xudtTypeHash != sell.xudtTypeHash || buy.amount != sell.amount || buy.price != sell.price then
          Err(Mismatch)
        else if buyCell.typ.Some? then Err(BuyHasType)
        else if TypeHash(hash, sellCell) != Some(sell.xudtTypeHash) then Err(SellType)
        else if UdtBalance(sellCell.data) != sell.amount then Err(SellAmount)
        else if hash(buyerLock) != buy.makerLockHash || hash(sellerLock) != sell.makerLockHash then Err(NoMakerLock)
        else if sellCell.capacity + sell.price > U64_MAX then Err(PaymentOverflow)
        else
          var allocation := AllocateSettlementCapacity(buyCell.capacity, sell.price,
                                                       occupied(buyerLock, sellCell.typ, |sellCell.data|), fee);
          if !allocation.Allocated? then Err(CannotAllocate)
          else Ok((Cell(sellCell.capacity + sell.price, sellerLock, None, []),
                   Cell(allocation.tokenCapacity, buyerLock, sellCell.typ, sellCell.data)))
      case _ => Err(BadArgs)
  }

  // The orders the helper reads are two sides of one deal, and their makers' locks were found.
  ghost predicate OneDeal(hash: Hasher, dex: ScriptId, buyCell: Cell, sellCell: Cell, buyer: Script, seller: Script,
                          buy: Terms, sell: Terms)
  {
    && buyCell.lock.Id() == sellCell.lock.Id() == dex
    && ParseOrderArgs(buyCell.lock.args) == Ok(buy) && ParseOrderArgs(sellCell.lock.args) == Ok(sell)
    && buy.side == Buy && sell.side == Sell
    && buy.asset == sell.asset && buy.amount == sell.amount && buy.price == sell.price
    && buy.maker == hash(buyer) && sell.maker == hash(seller)
  }

  // Exactly when the helper fills two orders, for orders whose args the contract reads, and with which outputs.
  lemma FillsIff(hash: Hasher, dex: ScriptId, buyCell: Cell, sellCell: Cell, buyer: Script, seller: Script,
                 occupied: Occupied, fee: nat, buy: Terms, sell: Terms)
    requires ParseOrderArgs(buyCell.lock.args) == Ok(buy) && ParseOrderArgs(sellCell.lock.args) == Ok(sell)
    ensures FillOrder(hash, dex, buyCell, sellCell, buyer, seller, occupied, fee).Ok? <==>
      && OneDeal(hash, dex, buyCell, sellCell, buyer, seller, buy, sell)
      && buyCell.typ.None? && TypeHash(hash, sellCell) == Some(sell.asset)
      && UdtBalance(sellCell.data) == sell.amount && sellCell.capacity + sell.price <= U64_MAX && fee <= 10_000
      && sell.price + occupied(buyer, sellCell.typ, |sellCell.data|) + fee <= buyCell.capacity
    ensures FillOrder(hash, dex, buyCell, sellCell, buyer, seller, occupied, fee).Ok? ==>
      FillOrder(hash, dex, buyCell, sellCell, buyer, seller, occupied, fee).value
        == (Cell(sellCell.capacity + sell.price, seller, None, []),
            Cell(buyCell.capacity - sell.price - fee, buyer, sellCell.typ, sellCell.data))
  {
    DecodersAgree(buyCell.lock.args);
    DecodersAgree(sellCell.lock.args);
  }

  // Orders the contract cannot read are never filled, and every other refusal names something that is so.
  lemma FillRefusalsAreTrue(hash: Hasher, dex: ScriptId, buyCell: Cell, sellCell: Cell, buyer: Script, seller: Script,
                            occupied: Occupied, fee: nat)
    requires FillOrder(hash, dex, buyCell, sellCell, buyer, seller, occupied, fee).Err?
    ensures var buy, sell := ParseOrderArgs(buyCell.lock.args), ParseOrderArgs(sellCell.lock.args);
      match FillOrder(hash, dex, buyCell, sellCell, buyer, seller, occupied, fee).error
      case NotDex => buyCell.lock.Id() != dex || sellCell.lock.Id() != dex
      case BadArgs => buy.Err? || sell.Err?
      case WrongSides => buy.Ok? && sell.Ok? && (buy.value.side != Buy || sell.value.side != Sell)
      case Mismatch =>
        buy.Ok? && sell.Ok?
        && (buy.value.asset != sell.value.asset || buy.value.amount != sell.value.amount
            || buy.value.price != sell.value.price)
      case BuyHasType => buyCell.typ.Some?
      case SellType => sell.Ok? && (sellCell.typ.None? || hash(sellCell.typ.value) != sell.value.asset)
      case SellAmount => sell.Ok? && UdtBalance(sellCell.data) != sell.value.amount
      case NoMakerLock =>
        buy.Ok? && sell.Ok? && (hash(buyer) != buy.value.maker || hash(seller) != sell.value.maker)
      case PaymentOverflow => sell.Ok? && sellCell.capacity + sell.value.price > 0xFFFF_FFFF_FFFF_FFFF
      case CannotAllocate =>
        sell.Ok?
        && (fee > 10_000
            || sell.value.price + occupied(buyer, sellCell.typ, |sellCell.data|) + fee > buyCell.capacity)
  {
    DecodersAgree(buyCell.lock.args);
    DecodersAgree(sellCell.lock.args);
  }

  // The helper's transaction is accepted except when a maker lock is an order lock, or the sell
  // cell holds its amount in fewer than sixteen bytes, which the helper lets through.
  lemma FillIsAccepted(hash: Hasher, dex: ScriptId, buyCell: Cell, sellCell: Cell, buyerLock: Script,
                       sellerLock: Script, occupied: Occupied, fee: nat)
    requires FillOrder(hash, dex, buyCell, sellCell, buyerLock, sellerLock, occupied, fee).Ok?
    ensures var (payment, tokens) :=
      FillOrder(hash, dex, buyCell, sellCell, buyerLock, sellerLock, occupied, fee).value;
      && buyCell.capacity + sellCell.capacity == payment.capacity + tokens.capacity + fee
      && (AllGroupsAccept(hash, dex, Tx([buyCell, sellCell], [payment, tokens])) <==>
            |sellCell.data| >= 16 && NoMakerInput(hash, hash(buyerLock), buyCell, sellCell)
            && NoMakerInput(hash, hash(sellerLock), buyCell, sellCell))
  {
    DecodersAgree(buyCell.lock.args);
    DecodersAgree(sellCell.lock.args);
    var (payment, tokens) := FillOrder(hash, dex, buyCell, sellCell, buyerLock, sellerLock, occupied, fee).value;
    TwoOutputSettlement(hash, dex, buyCell, sellCell, ParseOrderArgs(buyCell.lock.args).value,
                        ParseOrderArgs(sellCell.lock.args).value, payment, tokens, fee);
  }

  // ---- The UI's order cells ----

  const SETTLEMENT_FEE_RESERVE := 2 * MAX_SETTLEMENT_FEE

  function BuyOrderCapacity(occupied: Occupied, maker: Script, token: Script, price: nat): nat {
    price + occupied(maker, Some(token), 16) + SETTLEMENT_FEE_RESERVE
  }

  // The order cell of a create transaction; completing inputs and fees only adds other outputs.
  function CreateOrder(hash: Hasher, dex: ScriptId, occupied: Occupied, side: Side, maker: Script, token: Script,
                       amount: nat, price: nat): Option<Output>
  {
    match BuildDexLockArgs(Terms(side, hash(maker), hash(token), amount, price))
    case None => None
    case Some(args) =>
      var lock := Script(dex.codeHash, dex.hashType, args);
      if side == Sell then
        Some(Output(occupied(lock, Some(token), 16), lock, Some(token), ToLE(amount, 16)))
      else
        Some(Output(BuyOrderCapacity(occupied, maker, token, price), lock, None, []))
  }

  // The UI makes an order cell exactly for terms that fit the format, and funds it: a sell with what its own
  // cell occupies, a buy with the price, what the buyer's token cell will occupy, and twice the greatest fee.
  lemma CreatedOrderIsFunded(hash: Hasher, dex: ScriptId, occupied: Occupied, side: Side, maker: Script, token: Script,
                             amount: nat, price: nat)
    ensures var created := CreateOrder(hash, dex, occupied, side, maker, token, amount, price);
      && (created.Some? <==> amount <= U128_MAX && price <= U64_MAX)
      && (created.Some? ==>
            var o := created.value;
            if side == Sell then
              o.typ == Some(token) && |o.data| == 16 && o.capacity == occupied(o.lock, o.typ, |o.data|)
            else o.typ.None? && o.data == [] && o.capacity == price + occupied(maker, Some(token), 16) + 20_000)
  {
  }

  // The row the bot indexes for a cell whose funding input revealed the owner lock.
  function IndexedRow(cell: Cell, owner: Script, decoded: DecodedDexOrderArgs): OrderDoc {
    OrderDoc(cell.lock, cell.typ, cell.data, cell.capacity, owner, decoded.makerLockHash, decoded.direction,
             decoded.pricePerToken, decoded.tokenAmount, decoded.udtTypeHash)
  }

  // Every order cell the UI creates is indexed as a backed row carrying the terms the user entered.
  lemma CreatedOrderIsBacked(hash: Hasher, dex: ScriptId, occupied: Occupied, side: Side, maker: Script, token: Script,
                             amount: nat, price: nat)
    requires CreateOrder(hash, dex, occupied, side, maker, token, amount, price).Some?
    requires Fits(CreateOrder(hash, dex, occupied, side, maker, token, amount, price).value)
    ensures var cell := AsCell(CreateOrder(hash, dex, occupied, side, maker, token, amount, price).value);
      var terms := Terms(side, hash(maker), hash(token), amount, price);
      DecodeDexOrderArgs(cell.lock.args) == Ok(AsDecoded(terms))
      && Backed(hash, dex, IndexedRow(cell, maker, AsDecoded(terms)), cell)
  {
    BuildThenDecode(Terms(side, hash(maker), hash(token), amount, price));
    WidthLimits();
    FromToLE(amount, 16);
    assert ToLE(amount, 16)[..16] == ToLE(amount, 16);
  }

  // A buy order funded by the UI can be settled against any backed sell of the same terms, at any fee
  // up to the cap, exactly when the sell's token cell needs no more room than the reserve leaves.
  lemma CreatedBuyCanBeFilled(hash: Hasher, dex: ScriptId, supported: set<Hash>, occupied: Occupied, maker: Script,
                              token: Script, buyCell: Cell, sell: OrderDoc, sellCell: Cell, fee: nat)
    requires var created := CreateOrder(hash, dex, occupied, Buy, maker, token, sell.amount, sell.price);
      created.Some? && Fits(created.value) && buyCell == AsCell(created.value)
    requires Backed(hash, dex, sell, sellCell) && sell.direction == Ask && sell.asset == hash(token)
    requires sell.asset in supported && fee <= MAX_SETTLEMENT_FEE
    ensures var buy :=
      IndexedRow(buyCell, maker, DecodedDexOrderArgs(hash(maker), Bid, sell.asset, sell.amount, sell.price));
      && Backed(hash, dex, buy, buyCell)
      && (ExecuteTrade(supported, buy, sell, occupied, fee).Ok? <==>
            occupied(maker, sell.typeScript, |sell.cellData|) + fee <=
              occupied(maker, Some(token), 16) + SETTLEMENT_FEE_RESERVE)
      && (sell.typeScript == Some(token) && |sell.cellData| == 16 ==>
            ExecuteTrade(supported, buy, sell, occupied, fee).Ok?)
      && (ExecuteTrade(supported, buy, sell, occupied, fee).Ok? ==>
            TradeAccepted(hash, dex, ExecuteTrade(supported, buy, sell, occupied, fee).value, buy, sell, buyCell,
                          sellCell))
  {
    CreatedOrderIsBacked(hash, dex, occupied, Buy, maker, token, sell.amount, sell.price);
    var buy := IndexedRow(buyCell, maker, DecodedDexOrderArgs(hash(maker), Bid, sell.asset, sell.amount, sell.price));
    if ExecuteTrade(supported, buy, sell, occupied, fee).Ok? {
      TradeIsAccepted(hash, dex, supported, buy, sell, buyCell, sellCell, occupied, fee);
    }
  }

  // ---- Cancelling ----

  // The refund the UI puts first in a cancellation; a sell row without its type script is refused.
  function CancelRefund(order: OrderDoc): Option<Output> {
    if order.direction == Ask && order.typeScript.None? then None
    else if order.direction == Ask then Some(Output(order.capacity, order.ownerLock, order.typeScript, order.cellData))
    else Some(Output(order.capacity, order.ownerLock, None, []))
  }

  // The UI refunds the whole order to its owner, and refuses only a sell row without its type script.
  lemma RefundIsWhole(order: OrderDoc)
    ensures CancelRefund(order).None? <==> order.direction == Ask && order.typeScript.None?
    ensures CancelRefund(order).Some? ==>
      var o := CancelRefund(order).value;
      && o.capacity == order.capacity && o.lock == order.ownerLock
      && (order.direction == Ask ==> o.typ == order.typeScript && o.data == order.cellData)
      && (order.direction == Bid ==> o.typ.None? && o.data == [])
  {
  }

  predicate OtherDex(dex: ScriptId, others: seq<Cell>) {
    exists i :: 0 <= i < |others| && others[i].lock.Id() == dex
  }

  lemma {:induction false} AscendingAtLeast(d: seq<nat>, k: nat)
    requires k < |d| && forall i, j :: 0 <= i < j < |d| ==> d[i] < d[j]
    ensures d[k] >= k
  {
    if k > 0 {
      AscendingAtLeast(d, k - 1);
    }
  }

  lemma DexOfFirst(dex: ScriptId, cell: Cell, others: seq<Cell>)
    requires cell.lock.Id() == dex && !OtherDex(dex, others)
    ensures DexIndices(dex, [cell] + others) == [0]
  {
    var inputs := [cell] + others;
    var d := DexIndices(dex, inputs);
    DexComplete(dex, inputs, 0);
    assert forall i :: 0 < i < |inputs| ==> inputs[i] == others[i - 1];
    assert forall k :: 0 <= k < |d| ==> d[k] == 0;
    AscendingAtLeast(d, |d| - 1);
  }

  lemma TwoMembers(d: seq<nat>, x: nat, y: nat)
    requires x in d && y in d && x != y
    ensures |d| >= 2
  {
    var i :| 0 <= i < |d| && d[i] == x;
    var j :| 0 <= j < |d| && d[j] == y;
    assert i != j;
  }

  lemma DexBeyondFirst(dex: ScriptId, cell: Cell, others: seq<Cell>)
    requires cell.lock.Id() == dex && OtherDex(dex, others)
    ensures |DexIndices(dex, [cell] + others)| != 1
  {
    var inputs := [cell] + others;
    var i :| 0 <= i < |others| && others[i].lock.Id() == dex;
    assert inputs[i + 1] == others[i];
    DexComplete(dex, inputs, 0);
    DexComplete(dex, inputs, i + 1);
    TwoMembers(DexIndices(dex, inputs), 0, i + 1);
  }

  // The UI's refund satisfies the lock exactly when the order is a sell or carries no data.
  lemma RefundIsRefund(hash: Hasher, dex: ScriptId, order: OrderDoc, cell: Cell)
    requires Backed(hash, dex, order, cell)
    ensures CancelRefund(order).Some? && Fits(CancelRefund(order).value)
    ensures IsRefund(hash, cell, ParseOrderArgs(cell.lock.args).value, AsCell(CancelRefund(order).value)) <==>
      order.direction == Ask || cell.data == []
  {
  }

  // A first output is a refund, or one of the others is.
  lemma RefundAmong(hash: Hasher, order: Cell, t: Terms, first: Cell, change: seq<Cell>)
    ensures Refunded(hash, order, t, [first] + change) <==>
      IsRefund(hash, order, t, first) || Refunded(hash, order, t, change)
  {
    var outputs := [first] + change;
    assert outputs[0] == first;
    assert forall j :: 0 <= j < |change| ==> outputs[j + 1] == change[j];
    assert forall j :: 0 < j < |outputs| ==> outputs[j] == change[j - 1];
  }

  // A maker's spend of its order next to other DEX inputs is refused.
  lemma OtherDexRefused(hash: Hasher, dex: ScriptId, order: OrderDoc, cell: Cell, others: seq<Cell>, outputs: seq<Cell>)
    requires Backed(hash, dex, order, cell) && OtherDex(dex, others)
    requires MakerPresent(hash, Tx([cell] + others, outputs), order.ownerLockHash)
    ensures !AllGroupsAccept(hash, dex, Tx([cell] + others, outputs))
  {
    var tx := Tx([cell] + others, outputs);
    assert tx.inputs[0] == cell;
    DexBeyondFirst(dex, cell, others);
    assert EntryCode(hash, tx, tx.inputs[0].lock) == ERROR_DEX_INPUT_COUNT;
  }

  // As the only DEX input it is accepted exactly with a refund.
  lemma OnlyDexRefunded(hash: Hasher, dex: ScriptId, order: OrderDoc, cell: Cell, others: seq<Cell>, outputs: seq<Cell>)
    requires Backed(hash, dex, order, cell) && !OtherDex(dex, others)
    requires MakerPresent(hash, Tx([cell] + others, outputs), order.ownerLockHash)
    ensures AllGroupsAccept(hash, dex, Tx([cell] + others, outputs)) <==>
      Refunded(hash, cell, ParseOrderArgs(cell.lock.args).value, outputs)
  {
    var tx := Tx([cell] + others, outputs);
    assert tx.inputs[0] == cell;
    DexOfFirst(dex, cell, others);
    OneGroup(hash, dex, tx, 0);
  }

  // With a maker input present the cancellation is accepted exactly when no other input uses the DEX
  // lock and some output is a proper refund; the UI's own refund is one unless a buy cell holds data.
  lemma CancelIsAccepted(hash: Hasher, dex: ScriptId, order: OrderDoc, cell: Cell, others: seq<Cell>, change: seq<Cell>)
    requires Backed(hash, dex, order, cell)
    requires CancelRefund(order).Some? && Fits(CancelRefund(order).value)
    requires MakerPresent(hash, Tx([cell] + others, []), order.ownerLockHash)
    ensures var t := ParseOrderArgs(cell.lock.args).value;
      var tx := Tx([cell] + others, [AsCell(CancelRefund(order).value)] + change);
      AllGroupsAccept(hash, dex, tx) <==>
        !OtherDex(dex, others) && (order.direction == Ask || cell.data == [] || Refunded(hash, cell, t, change))
  {
    var refund := AsCell(CancelRefund(order).value);
    var outputs := [refund] + change;
    assert MakerPresent(hash, Tx([cell] + others, outputs), order.ownerLockHash) by {
      assert Tx([cell] + others, outputs).inputs == Tx([cell] + others, []).inputs;
    }
    if OtherDex(dex, others) {
      OtherDexRefused(hash, dex, order, cell, others, outputs);
    } else {
      OnlyDexRefunded(hash, dex, order, cell, others, outputs);
      RefundAmong(hash, cell, ParseOrderArgs(cell.lock.args).value, refund, change);
      RefundIsRefund(hash, dex, order, cell);
    }
  }

  // Without a maker input an order that is the only DEX input cannot be cancelled at all.
  lemma CancelNeedsMaker(hash: Hasher, dex: ScriptId, order: OrderDoc, cell: Cell, others: seq<Cell>,
                         outputs: seq<Cell>)
    requires Backed(hash, dex, order, cell) && !OtherDex(dex, others)
    requires !MakerPresent(hash, Tx([cell] + others, outputs), order.ownerLockHash)
    ensures !AllGroupsAccept(hash, dex, Tx([cell] + others, outputs))
  {
    var tx := Tx([cell] + others, outputs);
    DexOfFirst(dex, cell, others);
    assert tx.inputs[0] == cell;
    OneGroup(hash, dex, tx, 0);
  }

  // ---- Witnesses ----

  function Order(dex: ScriptId, t: Terms, capacity: U64, typ: Option<Script>, data: seq<Byte>): Cell
    requires OrderArgs.Encodable(t)
  {
    BuildThenDecode(t);
    Cell(capacity, Script(dex.codeHash, dex.hashType, BuildDexLockArgs(t).value), typ, data)
  }

  // A buy order whose cell holds data is verified and indexed, under every configuration that supports its
  // asset, and the UI cannot cancel it: with a maker input, any other inputs and any change without data, the
  // lock refuses.
  lemma DataBuyCannotBeCancelled(hash: Hasher, v: Verification, tip: nat, block: nat, blockHash: Hash, maker: Script,
                                 terms: Terms, capacity: U64, data: seq<Byte>)
    returns (tx: ChainTx, e: OrderConfirmed)
    requires OrderArgs.Encodable(terms) && terms.side == Buy && terms.maker == hash(maker) && terms.asset in v.supported
    requires v.depth == 0 || tip + 1 >= block + v.depth
    requires data != []
    ensures tx.blockNumber == block && tx.blockHash == blockHash
    ensures VerifyOrderConfirmed(hash, v, tip, Some(tx), e) == Accepted && e.index < |tx.outputs|
    ensures tx.outputs[e.index] == Order(v.dex, terms, capacity, None, data)
    ensures CancelRefund(e.order).Some? && Fits(CancelRefund(e.order).value)
    ensures forall others: seq<Cell>, change: seq<Cell> ::
      MakerPresent(hash, Tx([tx.outputs[e.index]] + others, []), terms.maker)
      && (forall c :: c in change ==> c.data == []) ==>
        !AllGroupsAccept(hash, v.dex,
                         Tx([tx.outputs[e.index]] + others, [AsCell(CancelRefund(e.order).value)] + change))
  {
    BuildThenDecode(terms);
    var cell := Order(v.dex, terms, capacity, None, data);
    tx := ChainTx(true, block, blockHash, None, [cell], [hash(maker)]);
    e := OrderConfirmed(0, block, blockHash, IndexedRow(cell, maker, AsDecoded(terms)), block, 0);
    VerifiedIffBacked(hash, v, tip, tx, e);
    RefundIsRefund(hash, v.dex, e.order, cell);
    forall others: seq<Cell>, change: seq<Cell> |
      MakerPresent(hash, Tx([cell] + others, []), terms.maker) && (forall c :: c in change ==> c.data == [])
      ensures !AllGroupsAccept(hash, v.dex, Tx([cell] + others, [AsCell(CancelRefund(e.order).value)] + change))
    {
      CancelIsAccepted(hash, v.dex, e.order, cell, others, change);
    }
  }

  lemma OneByteBalance(n: Byte)
    ensures UdtBalance([n]) == n
  {
    assert [n][1..] == [];
    assert FromLE([n]) == n + 256 * FromLE([n][1..]);
  }

  lemma OrderReads(dex: ScriptId, t: Terms, capacity: U64, typ: Option<Script>, data: seq<Byte>)
    requires OrderArgs.Encodable(t)
    ensures Order(dex, t, capacity, typ, data).lock.Id() == dex
    ensures ParseOrderArgs(Order(dex, t, capacity, typ, data).lock.args) == Ok(t)
  {
    BuildThenDecode(t);
  }

  // A sell cell that holds its amount in a single byte, against a buy that can pay for everything: the fill
  // helper builds the settlement, the lock refuses it.
  lemma ShortDataFillRefused(hash: Hasher, dex: ScriptId, buyer: Script, seller: Script, token: Script,
                             occupied: Occupied, amount: Byte, price: nat, buyCapacity: U64, sellCapacity: U64,
                             fee: nat)
    returns (buyCell: Cell, sellCell: Cell)
    requires price + occupied(buyer, Some(token), 1) + fee <= buyCapacity && fee <= MAX_SETTLEMENT_FEE
    requires sellCapacity + price <= U64_MAX
    ensures buyCell.capacity == buyCapacity && sellCell.capacity == sellCapacity && sellCell.data == [amount]
    ensures FillOrder(hash, dex, buyCell, sellCell, buyer, seller, occupied, fee).Ok?
    ensures var (payment, tokens) := FillOrder(hash, dex, buyCell, sellCell, buyer, seller, occupied, fee).value;
      !AllGroupsAccept(hash, dex, Tx([buyCell, sellCell], [payment, tokens]))
  {
    var buy := Terms(Buy, hash(buyer), hash(token), amount, price);
    var sell := Terms(Sell, hash(seller), hash(token), amount, price);
    buyCell, sellCell := Order(dex, buy, buyCapacity, None, []), Order(dex, sell, sellCapacity, Some(token), [amount]);
    OrderReads(dex, buy, buyCapacity, None, []);
    OrderReads(dex, sell, sellCapacity, Some(token), [amount]);
    OneByteBalance(amount);
    FillsIff(hash, dex, buyCell, sellCell, buyer, seller, occupied, fee, buy, sell);
    FillIsAccepted(hash, dex, buyCell, sellCell, buyer, seller, occupied, fee);
  }
}
