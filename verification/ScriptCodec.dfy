// The binary form of a script (Nervos RFC 0008, dynamic vector and table layout), alone and followed by
// an order's type and price.
module ScriptCodec {
  import opened Bytes
  import opened Cells

  const HEADER_LEN := 53
  const ORDER_TAIL_LEN := 9

  // A script as the codec's callers hold it: the code hash is any byte string until it is checked.
  datatype RawScript = RawScript(codeHash: seq<Byte>, hashType: HashType, args: seq<Byte>)

  datatype CodecError =
    | CodeHashLength(n: nat)
    | IntegerTooLarge
    | Truncated(offset: nat)
    | FullSizeOverruns(full: nat)
    | UnknownHashType(b: Byte)
    | ArgsLengthDisagrees(argsLen: nat, full: nat)
    | PriceNotPositive
    | PriceTooLarge
    | WrongTotalLength(n: nat, expected: nat)
    | UnknownOrderType(b: Byte)

  function HashTypeByte(t: HashType): Byte {
    match t
    case Data => 0
    case Type => 1
    case Data1 => 2
    case Data2 => 4
  }

  function ByteHashType(b: Byte): Option<HashType> {
    if b == 0 then Some(Data) else if b == 1 then Some(Type) else if b == 2 then Some(Data1)
    else if b == 4 then Some(Data2) else None
  }

  predicate Encodable(s: RawScript) {
    |s.codeHash| == HASH_LEN && HEADER_LEN + |s.args| <= U32_MAX
  }

  // ---- The layout ----

  // Where the table's three fields start: always the same, as the first two have a fixed size.
  function FieldOffsets(): (o: seq<Byte>)
    ensures |o| == 12
  {
    ToLE(16, 4) + ToLE(48, 4) + ToLE(49, 4)
  }

  function Layout(s: RawScript): seq<Byte> {
    ToLE(HEADER_LEN + |s.args|, 4) + FieldOffsets() + s.codeHash + [HashTypeByte(s.hashType)]
    + ToLE(|s.args|, 4) + s.args
  }

  // Overwrites part of the buffer, as the buffer's write and copy operations do.
  method Write(out: array<Byte>, at: nat, bytes: seq<Byte>)
    requires at + |bytes| <= out.Length
    modifies out
    ensures out[..] == old(out[..at]) + bytes + old(out[at + |bytes|..])
    ensures out[..at + |bytes|] == old(out[..at]) + bytes
  {
    var i := 0;
    while i < |bytes|
      invariant 0 <= i <= |bytes|
      invariant out[..] == old(out[..at]) + bytes[..i] + old(out[at + i..])
    {
      out[at + i] := bytes[i];
      i := i + 1;
    }
    assert bytes[..i] == bytes;
  }

  lemma Regroup(a: seq<Byte>, b: seq<Byte>, c: seq<Byte>, d: seq<Byte>)
    ensures a + b + c + d == a + (b + c + d)
  {
  }

  method WriteHeader(out: array<Byte>)
    requires HEADER_LEN <= out.Length <= U32_MAX
    modifies out
    ensures out[..16] == ToLE(out.Length, 4) + FieldOffsets()
  {
    var size, first, second, third := ToLE(out.Length, 4), ToLE(16, 4), ToLE(48, 4), ToLE(49, 4);
    Write(out, 0, size);
    assert out[..4] == size;
    Write(out, 4, first);
    assert out[..8] == size + first;
    Write(out, 8, second);
    assert out[..12] == size + first + second;
    Write(out, 12, third);
    Regroup(size, first, second, third);
  }

  method EncodeScript(s: RawScript) returns (r: Result<seq<Byte>, CodecError>)
    ensures |s.codeHash| != HASH_LEN ==> r == Err(CodeHashLength(|s.codeHash|))
    ensures |s.codeHash| == HASH_LEN && HEADER_LEN + |s.args| > U32_MAX ==> r == Err(IntegerTooLarge)
    ensures Encodable(s) ==> r == Ok(Layout(s))
  {
    if |s.codeHash| != HASH_LEN {
      return Err(CodeHashLength(|s.codeHash|));
    }
    var out := new Byte[HEADER_LEN + |s.args|](_ => 0);
    if out.Length > U32_MAX {
      return Err(IntegerTooLarge);
    }
    WriteHeader(out);
    Write(out, 16, s.codeHash);
    Write(out, 48, [HashTypeByte(s.hashType)]);
    Write(out, 49, ToLE(|s.args|, 4));
    Write(out, 53, s.args);
    assert out[..] == out[..out.Length];
    return Ok(out[..]);
  }

  datatype Decoded = Decoded(script: RawScript, end: nat)

  // Reads a script at an offset; the field offsets in the header are not looked at.
  function DecodeScript(buf: seq<Byte>, offset: nat): (r: Result<Decoded, CodecError>)
    ensures r.Ok? ==> offset + HEADER_LEN <= r.value.end <= |buf|
  {
    if |buf| < offset + HEADER_LEN then Err(Truncated(offset))
    else
      var full := FromLE(buf[offset..offset + 4]);
      if full < HEADER_LEN || offset + full > |buf| then Err(FullSizeOverruns(full))
      else
        var hashType := ByteHashType(buf[offset + 48]);
        if hashType.None? then Err(UnknownHashType(buf[offset + 48]))
        else
          var argsLen := FromLE(buf[offset + 49..offset + 53]);
          if HEADER_LEN + argsLen != full then Err(ArgsLengthDisagrees(argsLen, full))
          else
            Ok(Decoded(RawScript(buf[offset + 16..offset + 48], hashType.value, buf[offset + 53..offset + full]),
                       offset + full))
  }

  // ---- Round trips ----

  lemma LayoutParts(s: RawScript)
    requires |s.codeHash| == HASH_LEN
    ensures var b := Layout(s);
      && |b| == HEADER_LEN + |s.args|
      && b[0..4] == ToLE(HEADER_LEN + |s.args|, 4) && b[4..16] == FieldOffsets()
      && b[16..48] == s.codeHash && b[48] == HashTypeByte(s.hashType)
      && b[49..53] == ToLE(|s.args|, 4) && b[53..|b|] == s.args
  {
  }

  // The layout on the wire: total size, the field offsets 16, 48 and 49, the code hash, the hash type as 0, 1, 2
  // or 4, the length of the args and the args; every number in four bytes, least significant first.
  lemma WireFormat(s: RawScript, i: nat)
    requires |s.codeHash| == HASH_LEN && i < 4
    ensures var b := Layout(s);
      && |b| == 53 + |s.args| && b[i] == (53 + |s.args|) / Pow256(i) % 256
      && b[4] == 16 && b[8] == 48 && b[12] == 49
      && (i > 0 ==> b[4 + i] == 0 && b[8 + i] == 0 && b[12 + i] == 0)
      && b[16..48] == s.codeHash
      && b[48] == (match s.hashType case Data => 0 case Type => 1 case Data1 => 2 case Data2 => 4)
      && b[49 + i] == |s.args| / Pow256(i) % 256 && b[53..] == s.args
  {
    var b := Layout(s);
    LayoutParts(s);
    DigitAt(53 + |s.args|, 4, i);
    DigitAt(|s.args|, 4, i);
    OffsetBytes();
    assert b[i] == b[0..4][i] && b[49 + i] == b[49..53][i];
    assert forall j :: 0 <= j < 12 ==> b[4 + j] == b[4..16][j];
  }

  lemma OffsetBytes()
    ensures FieldOffsets() == [16, 0, 0, 0] + [48, 0, 0, 0] + [49, 0, 0, 0]
  {
    SmallInFour(16);
    SmallInFour(48);
    SmallInFour(49);
  }

  lemma SmallInFour(n: Byte)
    ensures ToLE(n, 4) == [n, 0, 0, 0]
  {
    assert ToLE(0, 3) == [0] + ToLE(0, 2) && ToLE(0, 2) == [0] + ToLE(0, 1) && ToLE(0, 1) == [0] + ToLE(0, 0);
  }

  // A refusal of the decoder names something that is so.
  lemma DecodeRefusalsAreTrue(buf: seq<Byte>, offset: nat)
    requires DecodeScript(buf, offset).Err?
    ensures match DecodeScript(buf, offset).error
      case Truncated(at) => at == offset && |buf| < offset + 53
      case FullSizeOverruns(full) =>
        |buf| >= offset + 53 && full == FromLE(buf[offset..offset + 4]) && (full < 53 || offset + full > |buf|)
      case UnknownHashType(b) => |buf| >= offset + 53 && b == buf[offset + 48] && b !in {0, 1, 2, 4}
      case ArgsLengthDisagrees(argsLen, full) =>
        |buf| >= offset + 53 && full == FromLE(buf[offset..offset + 4])
        && argsLen == FromLE(buf[offset + 49..offset + 53]) && full != 53 + argsLen
      case _ => false
  {
  }

  lemma SliceInside(before: seq<Byte>, b: seq<Byte>, rest: seq<Byte>, i: nat, j: nat)
    requires i <= j <= |b|
    ensures (before + b + rest)[|before| + i..|before| + j] == b[i..j]
  {
  }

  // Decoding a script anywhere in a buffer gives the script and the place right after it.
  lemma EncodeThenDecode(before: seq<Byte>, s: RawScript, rest: seq<Byte>)
    requires Encodable(s)
    ensures DecodeScript(before + Layout(s) + rest, |before|) == Ok(Decoded(s, |before| + |Layout(s)|))
  {
    LayoutParts(s);
    assert FromLE(Layout(s)[0..4]) == HEADER_LEN + |s.args| && FromLE(Layout(s)[49..53]) == |s.args| by {
      WidthLimits();
      FromToLE(HEADER_LEN + |s.args|, 4);
      FromToLE(|s.args|, 4);
    }
    DecodeParts(before, Layout(s), s, rest);
  }

  lemma DecodeParts(before: seq<Byte>, b: seq<Byte>, s: RawScript, rest: seq<Byte>)
    requires |b| == HEADER_LEN + |s.args| && FromLE(b[0..4]) == |b| && FromLE(b[49..53]) == |s.args|
    requires b[16..48] == s.codeHash && b[48] == HashTypeByte(s.hashType) && b[53..|b|] == s.args
    ensures DecodeScript(before + b + rest, |before|) == Ok(Decoded(s, |before| + |b|))
  {
    SliceInside(before, b, rest, 0, 4);
    SliceInside(before, b, rest, 16, 48);
    SliceInside(before, b, rest, 49, 53);
    SliceInside(before, b, rest, 53, |b|);
  }

  lemma DecodeAtStart(s: RawScript, rest: seq<Byte>)
    requires Encodable(s)
    ensures DecodeScript(Layout(s) + rest, 0) == Ok(Decoded(s, |Layout(s)|))
  {
    EncodeThenDecode([], s, rest);
    assert [] + Layout(s) + rest == Layout(s) + rest;
  }

  lemma SliceOfSlice(buf: seq<Byte>, o: nat, e: nat, i: nat, j: nat)
    requires o <= e <= |buf| && i <= j <= e - o
    ensures buf[o..e][i..j] == buf[o + i..o + j]
  {
    var a, b := buf[o..e][i..j], buf[o + i..o + j];
    assert |a| == |b| == j - i;
    assert forall k :: 0 <= k < j - i ==> a[k] == buf[o + (i + k)] == b[k];
  }

  lemma SameParts(a: seq<Byte>, b: seq<Byte>)
    requires |a| == |b| >= HEADER_LEN
    requires a[0..4] == b[0..4] && a[16..48] == b[16..48] && a[48] == b[48] && a[49..53] == b[49..53]
    requires a[53..|a|] == b[53..|b|]
    ensures a == b <==> a[4..16] == b[4..16]
  {
    assert a == a[0..4] + a[4..16] + a[16..48] + [a[48]] + a[49..53] + a[53..|a|];
    assert b == b[0..4] + b[4..16] + b[16..48] + [b[48]] + b[49..53] + b[53..|b|];
  }

  lemma DecodedSizes(buf: seq<Byte>, offset: nat)
    requires DecodeScript(buf, offset).Ok?
    ensures var s := DecodeScript(buf, offset).value.script;
      && Encodable(s)
      && buf[offset..offset + 4] == ToLE(HEADER_LEN + |s.args|, 4) && buf[offset + 49..offset + 53] == ToLE(|s.args|, 4)
  {
    FromLEBound(buf[offset..offset + 4]);
    WidthLimits();
    ToFromLE(buf[offset..offset + 4]);
    ToFromLE(buf[offset + 49..offset + 53]);
  }

  lemma DecodedParts(buf: seq<Byte>, offset: nat)
    requires DecodeScript(buf, offset).Ok?
    ensures var d := DecodeScript(buf, offset).value;
      var b := buf[offset..d.end];
      && Encodable(d.script) && |b| == HEADER_LEN + |d.script.args|
      && b[0..4] == ToLE(HEADER_LEN + |d.script.args|, 4) && b[4..16] == buf[offset + 4..offset + 16]
      && b[16..48] == d.script.codeHash && b[48] == HashTypeByte(d.script.hashType)
      && b[49..53] == ToLE(|d.script.args|, 4) && b[53..|b|] == d.script.args
  {
    var d := DecodeScript(buf, offset).value;
    DecodedSizes(buf, offset);
    SliceOfSlice(buf, offset, d.end, 0, 4);
    SliceOfSlice(buf, offset, d.end, 4, 16);
    SliceOfSlice(buf, offset, d.end, 16, 48);
    SliceOfSlice(buf, offset, d.end, 49, 53);
    SliceOfSlice(buf, offset, d.end, 53, d.end - offset);
  }

  // What the decoder accepts is the script's layout except, possibly, for the field offsets.
  lemma DecodeThenEncode(buf: seq<Byte>, offset: nat)
    requires DecodeScript(buf, offset).Ok?
    ensures var d := DecodeScript(buf, offset).value;
      && Encodable(d.script)
      && (Layout(d.script) == buf[offset..d.end] <==> buf[offset + 4..offset + 16] == FieldOffsets())
  {
    var d := DecodeScript(buf, offset).value;
    DecodedParts(buf, offset);
    LayoutParts(d.script);
    SameParts(Layout(d.script), buf[offset..d.end]);
  }

  // No script's layout is a prefix of another's: what follows it cannot be mistaken for part of it.
  lemma PrefixFree(s: RawScript, t: RawScript, x: seq<Byte>, y: seq<Byte>)
    requires Encodable(s) && Encodable(t) && Layout(s) + x == Layout(t) + y
    ensures s == t && x == y
  {
    DecodeAtStart(s, x);
    DecodeAtStart(t, y);
    assert x == (Layout(s) + x)[|Layout(s)|..];
  }

  // ---- Scripts followed by an order's type and price ----

  datatype OrderType = Ask | Bid

  datatype DexLockArgs = DexLockArgs(ownerLock: RawScript, orderType: OrderType, pricePerToken: int)

  function OrderTypeByte(t: OrderType): Byte {
    if t == Ask then 0 else 1
  }

  function ArgsLayout(a: DexLockArgs): seq<Byte>
    requires a.pricePerToken >= 0
  {
    Layout(a.ownerLock) + [OrderTypeByte(a.orderType)] + ToLE(a.pricePerToken, 8)
  }

  method EncodeDexLockScriptArgs(a: DexLockArgs) returns (r: Result<seq<Byte>, CodecError>)
    ensures a.pricePerToken <= 0 ==> r == Err(PriceNotPositive)
    ensures a.pricePerToken > U64_MAX ==> r == Err(PriceTooLarge)
    ensures 0 < a.pricePerToken <= U64_MAX && |a.ownerLock.codeHash| != HASH_LEN ==>
      r == Err(CodeHashLength(|a.ownerLock.codeHash|))
    ensures 0 < a.pricePerToken <= U64_MAX && |a.ownerLock.codeHash| == HASH_LEN && !Encodable(a.ownerLock) ==>
      r == Err(IntegerTooLarge)
    ensures 0 < a.pricePerToken <= U64_MAX && Encodable(a.ownerLock) ==> r == Ok(ArgsLayout(a))
  {
    if a.pricePerToken <= 0 {
      return Err(PriceNotPositive);
    }
    if a.pricePerToken > U64_MAX {
      return Err(PriceTooLarge);
    }
    var encoded := EncodeScript(a.ownerLock);
    if encoded.Err? {
      return encoded;
    }
    var lock := encoded.value;
    var out := new Byte[|lock| + ORDER_TAIL_LEN](_ => 0);
    Write(out, 0, lock);
    Write(out, |lock|, [OrderTypeByte(a.orderType)]);
    Write(out, |lock| + 1, ToLE(a.pricePerToken, 8));
    assert out[..] == out[..out.Length] == ArgsLayout(a);
    return Ok(out[..]);
  }

  function DecodeDexLockScriptArgs(buf: seq<Byte>): Result<DexLockArgs, CodecError> {
    var decoded := DecodeScript(buf, 0);
    if decoded.Err? then Err(decoded.error)
    else
      var end := decoded.value.end;
      if |buf| != end + ORDER_TAIL_LEN then Err(WrongTotalLength(|buf|, end + ORDER_TAIL_LEN))
      else if buf[end] != OrderTypeByte(Ask) && buf[end] != OrderTypeByte(Bid) then Err(UnknownOrderType(buf[end]))
      else Ok(DexLockArgs(decoded.value.script, if buf[end] == OrderTypeByte(Ask) then Ask else Bid,
                          FromLE(buf[end + 1..end + 9])))
  }

  // Behind the script come the order type, 0 for an ask and 1 for a bid, and the price in eight bytes.
  lemma ArgsWireFormat(a: DexLockArgs, i: nat)
    requires a.pricePerToken >= 0 && i < 8
    ensures var b, n := ArgsLayout(a), |Layout(a.ownerLock)|;
      && |b| == n + 9 && b[..n] == Layout(a.ownerLock) && b[n] == (if a.orderType == Ask then 0 else 1)
      && b[n + 1 + i] == a.pricePerToken / Pow256(i) % 256
  {
    DigitAt(a.pricePerToken, 8, i);
  }

  // Order args are refused for their script, for their length or for their order type.
  lemma ArgsRefusalsAreTrue(buf: seq<Byte>)
    requires DecodeDexLockScriptArgs(buf).Err?
    ensures var decoded, error := DecodeScript(buf, 0), DecodeDexLockScriptArgs(buf).error;
      if decoded.Err? then error == decoded.error
      else
        var end := decoded.value.end;
        match error
        case WrongTotalLength(n, expected) => n == |buf| && expected == end + 9 && n != expected
        case UnknownOrderType(b) => |buf| == end + 9 && b == buf[end] && b > 1
        case _ => false
  {
  }

  lemma EncodeThenDecodeArgs(a: DexLockArgs)
    requires Encodable(a.ownerLock) && 0 <= a.pricePerToken <= U64_MAX
    ensures DecodeDexLockScriptArgs(ArgsLayout(a)) == Ok(a)
  {
    var buf, lock := ArgsLayout(a), Layout(a.ownerLock);
    DecodeAtStart(a.ownerLock, [OrderTypeByte(a.orderType)] + ToLE(a.pricePerToken, 8));
    assert buf == lock + ([OrderTypeByte(a.orderType)] + ToLE(a.pricePerToken, 8));
    assert buf[|lock| + 1..|lock| + 9] == ToLE(a.pricePerToken, 8);
    WidthLimits();
    FromToLE(a.pricePerToken, 8);
  }

  // Re-encoding accepted bytes gives them back exactly when their field offsets are the fixed ones; the
  // encoder itself then refuses only a zero price, which the decoder lets through.
  lemma DecodeThenEncodeArgs(buf: seq<Byte>)
    requires DecodeDexLockScriptArgs(buf).Ok?
    ensures var a := DecodeDexLockScriptArgs(buf).value;
      && Encodable(a.ownerLock) && 0 <= a.pricePerToken <= U64_MAX
      && (ArgsLayout(a) == buf <==> buf[4..16] == FieldOffsets())
  {
    var a := DecodeDexLockScriptArgs(buf).value;
    var d := DecodeScript(buf, 0).value;
    DecodeThenEncode(buf, 0);
    FromLEBound(buf[d.end + 1..d.end + 9]);
    WidthLimits();
    ToFromLE(buf[d.end + 1..d.end + 9]);
    assert buf == buf[..d.end] + [buf[d.end]] + buf[d.end + 1..d.end + 9];
    LayoutParts(d.script);
    if ArgsLayout(a) == buf {
      assert ArgsLayout(a)[..d.end] == Layout(d.script);
    } else {
      assert Layout(d.script) != buf[0..d.end];
    }
  }

  // ---- Searching an owner's orders by prefix ----

  // The prefix finds an encoded order exactly when the order has that owner.
  lemma OwnerPrefixFindsOwner(owner: RawScript, a: DexLockArgs)
    requires Encodable(owner) && Encodable(a.ownerLock) && 0 <= a.pricePerToken <= U64_MAX
    ensures Layout(owner) <= ArgsLayout(a) <==> a.ownerLock == owner
  {
    var tail := [OrderTypeByte(a.orderType)] + ToLE(a.pricePerToken, 8);
    assert ArgsLayout(a) == Layout(a.ownerLock) + tail;
    if Layout(owner) <= ArgsLayout(a) {
      var rest := ArgsLayout(a)[|Layout(owner)|..];
      assert Layout(owner) + rest == Layout(a.ownerLock) + tail;
      PrefixFree(owner, a.ownerLock, rest, tail);
    }
  }

  // Among all args the decoder accepts, the prefix finds the owner's orders that carry the fixed field offsets.
  lemma OwnerPrefixAmongAccepted(owner: RawScript, buf: seq<Byte>)
    requires Encodable(owner) && DecodeDexLockScriptArgs(buf).Ok?
    ensures Layout(owner) <= buf <==>
      (DecodeDexLockScriptArgs(buf).value.ownerLock == owner && buf[4..16] == FieldOffsets())
  {
    var d := DecodeScript(buf, 0).value;
    DecodeThenEncode(buf, 0);
    LayoutParts(owner);
    if Layout(owner) <= buf {
      DecodeAtStart(owner, buf[|Layout(owner)|..]);
      assert buf == Layout(owner) + buf[|Layout(owner)|..];
      assert buf[4..16] == Layout(owner)[4..16];
    }
  }

  // A script's layout with other field offsets.
  function WithOffsets(s: RawScript, offsets: seq<Byte>): (b: seq<Byte>)
    requires |offsets| == 12 && |s.codeHash| == HASH_LEN
    ensures |b| == HEADER_LEN + |s.args| && b[4..16] == offsets
  {
    ToLE(HEADER_LEN + |s.args|, 4) + offsets + s.codeHash + [HashTypeByte(s.hashType)] + ToLE(|s.args|, 4) + s.args
  }

  lemma OffsetsParts(s: RawScript, offsets: seq<Byte>)
    requires |offsets| == 12 && |s.codeHash| == HASH_LEN
    ensures var b := WithOffsets(s, offsets);
      && b[0..4] == ToLE(HEADER_LEN + |s.args|, 4) && b[16..48] == s.codeHash && b[48] == HashTypeByte(s.hashType)
      && b[49..53] == ToLE(|s.args|, 4) && b[53..|b|] == s.args
  {
  }

  // The decoder reads a script whatever its field offsets are.
  lemma ZeroedDecodes(s: RawScript, offsets: seq<Byte>, rest: seq<Byte>)
    requires Encodable(s) && |offsets| == 12
    ensures DecodeScript(WithOffsets(s, offsets) + rest, 0) == Ok(Decoded(s, |WithOffsets(s, offsets)|))
  {
    var b := WithOffsets(s, offsets);
    OffsetsParts(s, offsets);
    WidthLimits();
    FromToLE(HEADER_LEN + |s.args|, 4);
    FromToLE(|s.args|, 4);
    DecodeParts([], b, s, rest);
    assert [] + b + rest == b + rest;
  }

  lemma TailDecodes(script: seq<Byte>, owner: RawScript, price: nat)
    requires price <= U64_MAX
    requires var tail := [OrderTypeByte(Ask)] + ToLE(price, 8);
      DecodeScript(script + tail, 0) == Ok(Decoded(owner, |script|))
    ensures DecodeDexLockScriptArgs(script + ([OrderTypeByte(Ask)] + ToLE(price, 8))) ==
      Ok(DexLockArgs(owner, Ask, price))
  {
    var buf := script + ([OrderTypeByte(Ask)] + ToLE(price, 8));
    assert buf[|script|] == OrderTypeByte(Ask) && buf[|script| + 1..|script| + 9] == ToLE(price, 8);
    WidthLimits();
    FromToLE(price, 8);
  }

  // For every owner and price there are accepted args, with the field offsets zeroed, that name this owner
  // and that the search for the owner's orders misses.
  lemma PrefixMissesOtherOffsets(owner: RawScript, price: nat) returns (buf: seq<Byte>)
    requires Encodable(owner) && price <= U64_MAX
    ensures DecodeDexLockScriptArgs(buf) == Ok(DexLockArgs(owner, Ask, price))
    ensures !(Layout(owner) <= buf)
  {
    var zeros: seq<Byte> := seq(12, _ => 0);
    var tail := [OrderTypeByte(Ask)] + ToLE(price, 8);
    var script := WithOffsets(owner, zeros);
    buf := script + tail;
    ZeroedDecodes(owner, zeros, tail);
    TailDecodes(script, owner, price);
    OwnerPrefixAmongAccepted(owner, buf);
    assert buf[4..16] == script[4..16] == zeros;
    assert zeros[0] != FieldOffsets()[0];
  }
}
