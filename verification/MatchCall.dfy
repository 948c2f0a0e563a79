/** The decoded arguments of one matchOrders call. */
module MatchCall {
  import opened Words
  import opened Ledger

  datatype SignatureType = Eoa | PolyProxy | PolyGnosisSafe | Poly1271

  datatype MatchOrder = MatchOrder(
    salt: U256, maker: Address, signer: Address, tokenId: U256, makerAmount: U256, takerAmount: U256,
    side: TradeSide, signatureType: SignatureType, timestamp: U256, metadata: Hash, builder: Hash,
    signature: seq<Byte>)

  datatype TakerAmounts = TakerAmounts(fill: U256, receive: U256, fee: U256)

  datatype MatchOrdersCall = MatchOrdersCall(
    takerOrder: MatchOrder, makerOrders: seq<MatchOrder>, makerFills: seq<U256>, makerFees: seq<U256>,
    takerAmounts: TakerAmounts)
  {
    /** The decoder only returns calls with one fill and one fee per maker order. */
    predicate Aligned() { |makerFills| == |makerOrders| && |makerFees| == |makerOrders| }
  }
}
