// The 90-byte lock args that hold an order's terms, and the three decoders that read them.
module OrderArgs {
  import opened Bytes

  const ORDER_ARGS_LEN := 90
  const ORDER_VERSION: Byte := 1
  const SIDE_BUY: Byte := 0
  const SIDE_SELL: Byte := 1

  datatype Side = Buy | Sell

  datatype Terms = Terms(side: Side, maker: Hash, asset: Hash, amount: nat, price: nat)

  // Terms whose integers fit the u128 and u64 fields of the format.
  ghost predicate Encodable(t: Terms) {
    t.amount <= U128_MAX && t.price <= U64_MAX
  }

  const ERROR_ARGS_LENGTH := -2
  const ERROR_VERSION := -14
  const ERROR_SIDE := -15

  // The contract's decoder; an error is the script's exit code.
  function ParseOrderArgs(args: seq<Byte>): Result<Terms, int> {
    if |args| != ORDER_ARGS_LEN then Err(ERROR_ARGS_LENGTH)
    else if args[0] != ORDER_VERSION then Err(ERROR_VERSION)
    else if args[1] != SIDE_BUY && args[1] != SIDE_SELL then Err(ERROR_SIDE)
    else Ok(Terms(if args[1] == SIDE_SELL then Sell else Buy, args[2..34], args[34..66],
                  FromLE(args[66..82]), FromLE(args[82..90])))
  }

  datatype Direction = Ask | Bid

  datatype DecodedDexOrderArgs = DecodedDexOrderArgs(
    makerLockHash: Hash, direction: Direction, udtTypeHash: Hash, tokenAmount: nat, pricePerToken: nat)

  datatype DecodeError = BadLength(length: nat) | BadVersion(version: Byte) | BadSide(side: Byte)

  // The backend's decoder: walks the buffer with a running offset.
  function DecodeDexOrderArgs(buf: seq<Byte>): Result<DecodedDexOrderArgs, DecodeError> {
    if |buf| != 1 + 1 + HASH_LEN + HASH_LEN + 16 + 8 then Err(BadLength(|buf|))
    else if buf[0] != ORDER_VERSION then Err(BadVersion(buf[0]))
    else if buf[1] != SIDE_BUY && buf[1] != SIDE_SELL then Err(BadSide(buf[1]))
    else
      var offset := 2;
      var maker := buf[offset..offset + HASH_LEN];
      var offset := offset + HASH_LEN;
      var asset := buf[offset..offset + HASH_LEN];
      var offset := offset + HASH_LEN;
      var amount := FromLE(buf[offset..offset + 16]);
      var offset := offset + 16;
      Ok(DecodedDexOrderArgs(maker, if buf[1] == SIDE_SELL then Ask else Bid, asset, amount,
                             FromLE(buf[offset..offset + 8])))
  }

  // The off-chain fill helper's decoder keeps the raw side byte.
  datatype OrderTerms = OrderTerms(side: Byte, makerLockHash: Hash, xudtTypeHash: Hash, amount: nat, price: nat)

  function ReadOrderTerms(args: seq<Byte>): Result<OrderTerms, DecodeError> {
    if |args| != ORDER_ARGS_LEN then Err(BadLength(|args|))
    else if args[0] != ORDER_VERSION then Err(BadVersion(args[0]))
    else if args[1] != SIDE_BUY && args[1] != SIDE_SELL then Err(BadSide(args[1]))
    else Ok(OrderTerms(args[1], args[2..34], args[34..66], FromLE(args[66..82]), FromLE(args[82..90])))
  }

  function SideByte(s: Side): Byte {
    if s == Buy then SIDE_BUY else SIDE_SELL
  }

  // What the UI writes into a new order's lock; terms that overflow a field are refused.
  function BuildDexLockArgs(t: Terms): Option<seq<Byte>> {
    if t.amount > U128_MAX || t.price > U64_MAX then None
    else Some([ORDER_VERSION, SideByte(t.side)] + t.maker + t.asset + ToLE(t.amount, 16) + ToLE(t.price, 8))
  }

  function AsDecoded(t: Terms): DecodedDexOrderArgs {
    DecodedDexOrderArgs(t.maker, if t.side == Sell then Ask else Bid, t.asset, t.amount, t.price)
  }

  function AsOrderTerms(t: Terms): OrderTerms {
    OrderTerms(SideByte(t.side), t.maker, t.asset, t.amount, t.price)
  }

  lemma BuiltFields(t: Terms)
    requires BuildDexLockArgs(t).Some?
    ensures var args := BuildDexLockArgs(t).value;
      |args| == ORDER_ARGS_LEN && args[0] == ORDER_VERSION && args[1] == SideByte(t.side)
      && args[2..34] == t.maker && args[34..66] == t.asset
      && args[66..82] == ToLE(t.amount, 16) && args[82..90] == ToLE(t.price, 8)
  {
  }

  // The ninety bytes on the wire: version 1, side 0 for a buy and 1 for a sell, both hashes, then amount and
  // price, each integer digit by digit to the base 256, least significant first.
  lemma WireFormat(t: Terms, i: nat)
    requires BuildDexLockArgs(t).Some? && i < 16
    ensures var args := BuildDexLockArgs(t).value;
      && |args| == 90 && args[0] == 1 && args[1] == (if t.side == Buy then 0 else 1)
      && args[2..34] == t.maker && args[34..66] == t.asset
      && args[66 + i] == t.amount / Pow256(i) % 256
      && (i < 8 ==> args[82 + i] == t.price / Pow256(i) % 256)
  {
    var args := BuildDexLockArgs(t).value;
    BuiltFields(t);
    DigitAt(t.amount, 16, i);
    assert args[66 + i] == args[66..82][i];
    if i < 8 {
      DigitAt(t.price, 8, i);
      assert args[82 + i] == args[82..90][i];
    }
  }

  // Why a decoder refuses: the length, the version or the side, in this order.
  lemma DecoderRefusals(args: seq<Byte>)
    ensures |args| != 90 ==> ParseOrderArgs(args) == Err(-2) && DecodeDexOrderArgs(args) == Err(BadLength(|args|))
    ensures |args| == 90 && args[0] != 1 ==>
      ParseOrderArgs(args) == Err(-14) && DecodeDexOrderArgs(args) == Err(BadVersion(args[0]))
    ensures |args| == 90 && args[0] == 1 && args[1] > 1 ==>
      ParseOrderArgs(args) == Err(-15) && DecodeDexOrderArgs(args) == Err(BadSide(args[1]))
    ensures |args| == 90 && args[0] == 1 && args[1] <= 1 ==> ParseOrderArgs(args).Ok? && DecodeDexOrderArgs(args).Ok?
  {
  }

  // The UI refuses exactly the terms the format cannot hold; every decoder gets the others back.
  lemma BuildThenDecode(t: Terms)
    ensures BuildDexLockArgs(t).Some? <==> Encodable(t)
    ensures Encodable(t) ==>
      var args := BuildDexLockArgs(t).value;
      ParseOrderArgs(args) == Ok(t) && DecodeDexOrderArgs(args) == Ok(AsDecoded(t))
      && ReadOrderTerms(args) == Ok(AsOrderTerms(t))
  {
    if Encodable(t) {
      BuiltFields(t);
      WidthLimits();
      FromToLE(t.amount, 16);
      FromToLE(t.price, 8);
    }
  }

  // Accepted bytes carry encodable terms, and building those terms gives the same bytes back.
  lemma DecodeThenBuild(args: seq<Byte>)
    requires ParseOrderArgs(args).Ok?
    ensures Encodable(ParseOrderArgs(args).value)
    ensures BuildDexLockArgs(ParseOrderArgs(args).value) == Some(args)
  {
    var t := ParseOrderArgs(args).value;
    WidthLimits();
    FromLEBound(args[66..82]);
    FromLEBound(args[82..90]);
    ToFromLE(args[66..82]);
    ToFromLE(args[82..90]);
    BuiltFields(t);
    var built := BuildDexLockArgs(t).value;
    assert args == args[..2] + args[2..34] + args[34..66] + args[66..82] + args[82..90];
    assert built == built[..2] + built[2..34] + built[34..66] + built[66..82] + built[82..90];
    assert args[..2] == built[..2];
  }

  // The contract, the backend and the fill helper accept the same bytes and read the same values.
  lemma DecodersAgree(args: seq<Byte>)
    ensures ParseOrderArgs(args).Ok? <==> DecodeDexOrderArgs(args).Ok?
    ensures ParseOrderArgs(args).Ok? <==> ReadOrderTerms(args).Ok?
    ensures ParseOrderArgs(args).Ok? ==>
      DecodeDexOrderArgs(args) == Ok(AsDecoded(ParseOrderArgs(args).value))
      && ReadOrderTerms(args) == Ok(AsOrderTerms(ParseOrderArgs(args).value))
    ensures DecodeDexOrderArgs(args).Err? ==> ReadOrderTerms(args) == Err(DecodeDexOrderArgs(args).error)
  {
    if ParseOrderArgs(args).Ok? {
      DecodeThenBuild(args);
      BuildThenDecode(ParseOrderArgs(args).value);
    }
  }

  // Distinct terms never share an encoding.
  lemma BuildIsInjective(s: Terms, t: Terms)
    requires Encodable(s) && Encodable(t) && BuildDexLockArgs(s) == BuildDexLockArgs(t)
    ensures s == t
  {
    BuildThenDecode(s);
    BuildThenDecode(t);
  }
}
