/** Where every field of a matchOrders call stands in its calldata, as the number that its bytes
    write: what the decoder reads, whatever the encoder would write. */
module MatchReading {
  import opened Words
  import opened Ledger
  import opened MatchCall
  import opened Bytes
  import opened MatchCodec

  /** The eleven fixed fields and the signature of an order that starts at an offset. */
  ghost predicate OrderStandsAt(o: MatchOrder, data: seq<Byte>, start: nat) {
    && start + 416 <= |data|
    && o.salt == Number(data, start) && o.maker == Number(data, start + 32) && o.signer == Number(data, start + 64)
    && o.tokenId == Number(data, start + 96) && o.makerAmount == Number(data, start + 128)
    && o.takerAmount == Number(data, start + 160)
    && o.timestamp == Number(data, start + 256) && o.metadata == Number(data, start + 288)
    && o.builder == Number(data, start + 320) && Number(data, start + 352) == 384
    && |o.signature| == Number(data, start + 384) <= 2_048
    && start + 416 + |o.signature| <= |data| && o.signature == data[start + 416..start + 416 + |o.signature|]
  }

  /** Side 0 is a buy and 1 a sell. */
  ghost predicate SideIs(side: TradeSide, n: nat) {
    n <= 1 && (side == Buy <==> n == 0) && (side == Sell <==> n == 1)
  }

  /** The four signature types, from 0 on. */
  ghost predicate TypeIs(t: SignatureType, n: nat) {
    && n <= 3 && (t == Eoa <==> n == 0) && (t == PolyProxy <==> n == 1) && (t == PolyGnosisSafe <==> n == 2)
    && (t == Poly1271 <==> n == 3)
  }

  lemma DecodedOrderReads(data: seq<Byte>, start: nat)
    requires DecodeOrder(data, start).Some?
    ensures var o := DecodeOrder(data, start).value.0;
      OrderStandsAt(o, data, start) && SideIs(o.side, Number(data, start + 192))
      && TypeIs(o.signatureType, Number(data, start + 224))
    ensures var o, end := DecodeOrder(data, start).value.0, DecodeOrder(data, start).value.1;
      && start + 416 + |o.signature| <= end < start + 416 + |o.signature| + 32
      && end <= |data| && (end - start) % 32 == 0
      && forall k :: start + 416 + |o.signature| <= k < end ==> data[k] == 0
  {
    hide WordSpan, AddressSpan, FromBytes;
    var o, end := DecodeOrder(data, start).value.0, DecodeOrder(data, start).value.1;
    var from := start + 416 + |o.signature|;
    forall k | from <= k < end
      ensures data[k] == 0
    {
      assert data[from..end][k - from] == Zeros(end - from)[k - from];
    }
  }

  // ----- the arrays

  lemma {:induction false} DecodedOrdersRead(data: seq<Byte>, headsStart: nat, index: nat, count: nat, cursor: nat,
                                             i: nat)
    requires index <= count && 32 <= headsStart <= cursor && index <= i < count
    requires DecodeOrders(data, headsStart, index, count, cursor).Some?
    ensures var orders := DecodeOrders(data, headsStart, index, count, cursor).value.0;
      OrderOfArray(data, headsStart - 32, i, orders[i - index])
    decreases count - index
  {
    hide DecodeOrder, FromBytes, WordSpan;
    var next := DecodeOrder(data, cursor).value.1;
    if i > index {
      DecodedOrdersRead(data, headsStart, index + 1, count, next, i);
    }
  }

  /** The orders of an array: a count, then one offset for each, counted from the first of them. */
  lemma DecodedArrayReads(data: seq<Byte>, start: nat)
    requires DecodeOrderArray(data, start).Some?
    ensures var orders := DecodeOrderArray(data, start).value.0;
      && start + 32 + 32 * |orders| <= |data| && 1 <= |orders| == Number(data, start) <= 128
      && forall i :: 0 <= i < |orders| ==> OrderOfArray(data, start, i, orders[i])
  {
    hide DecodeOrders, DecodeOrder, FromBytes, WordSpan;
    var orders := DecodeOrderArray(data, start).value.0;
    var n := |orders|;
    forall i | 0 <= i < n
      ensures OrderOfArray(data, start, i, orders[i])
    {
      DecodedOrdersRead(data, start + 32, 0, n, start + 32 + 32 * n, i);
    }
  }

  ghost predicate OrderOfArray(data: seq<Byte>, start: nat, i: nat, o: MatchOrder) {
    start + 64 + 32 * i <= |data|
    && var at := start + 32 + Number(data, start + 32 + 32 * i);
       DecodeOrder(data, at).Some? && DecodeOrder(data, at).value.0 == o
  }

  lemma DecodedWordsRead(data: seq<Byte>, start: nat, count: nat)
    requires DecodeWordArray(data, start, count).Some?
    ensures var words := DecodeWordArray(data, start, count).value.0;
      && start + 32 + 32 * count <= |data| && |words| == count == Number(data, start)
      && forall i :: 0 <= i < count ==> words[i] == Number(data, start + 32 + 32 * i)
  {
    hide FromBytes, WordSpan;
    var words := DecodeWordArray(data, start, count).value.0;
    forall i | 0 <= i < count
      ensures words[i] == Number(data, start + 32 + 32 * i)
    {
      assert WordAt(data, start + 32 + 32 * i) == Some(words[i]);
    }
  }

  // ----- the call

  /** Every part of a decoded call, at its own offset of the arguments. */
  ghost predicate CallStandsIn(c: MatchOrdersCall, args: seq<Byte>)
    requires c.Aligned()
  {
    var n := |c.makerOrders|;
    && |args| >= 224 && Number(args, 0) == 224
    && DecodeOrder(args, 224).Some? && c.takerOrder == DecodeOrder(args, 224).value.0
    && c.takerAmounts.fill == Number(args, 128) && c.takerAmounts.receive == Number(args, 160)
    && c.takerAmounts.fee == Number(args, 192)
    && var makers, fills, fees := Number(args, 32), Number(args, 64), Number(args, 96);
       && makers + 32 + 32 * n <= |args| && n == Number(args, makers)
       && (forall i :: 0 <= i < n ==> OrderOfArray(args, makers, i, c.makerOrders[i]))
       && fills + 32 + 32 * n <= |args| && fees + 32 + 32 * n <= |args|
       && (forall i :: 0 <= i < n ==> c.makerFills[i] == Number(args, fills + 32 + 32 * i))
       && (forall i :: 0 <= i < n ==> c.makerFees[i] == Number(args, fees + 32 + 32 * i))
  }

  lemma DecodedCallReads(input: seq<Byte>)
    requires DecodeCall(input).Some?
    ensures |input| >= 4 && input[..4] == [0x0f, 0xb2, 0x5b, 0xa4]
    ensures CallStandsIn(DecodeCall(input).value, input[4..])
  {
    hide DecodeOrder, DecodeOrderArray, DecodeWordArray, FromBytes, WordSpan, OrderOfArray;
    var args := input[4..];
    var taker := DecodeOrder(args, TOP_HEAD_BYTES).value;
    var makers := DecodeOrderArray(args, taker.1).value;
    var fills := DecodeWordArray(args, makers.1, |makers.0|).value;
    DecodedArrayReads(args, taker.1);
    DecodedWordsRead(args, makers.1, |makers.0|);
    DecodedWordsRead(args, fills.1, |makers.0|);
  }

  /** A call of 1 to 128 makers whose lists are as long and whose signatures are short enough. */
  ghost predicate IsOfSize(c: MatchOrdersCall) {
    && 1 <= |c.makerOrders| <= 128 && |c.makerFills| == |c.makerOrders| == |c.makerFees|
    && |c.takerOrder.signature| <= 2_048
    && forall i :: 0 <= i < |c.makerOrders| ==> |c.makerOrders[i].signature| <= 2_048
  }

  /** Every such call decodes from its encoding, if that is no longer than calldata may be. */
  lemma EverySizeDecodes(c: MatchOrdersCall)
    ensures IsOfSize(c) <==> Encodable(c)
    ensures IsOfSize(c) && |EncodeCall(c)| <= 262_144 ==> DecodeCall(EncodeCall(c)) == Some(c)
  {
    if IsOfSize(c) { CallRoundTrip(EncodeCall(c), c); }
    hide DecodeCall, EncodeCall;
  }
}
