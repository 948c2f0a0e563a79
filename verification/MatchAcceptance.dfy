/** Which calls settle, said in prices and totals of the orders alone: the partner of the steps by
    which the program finds it out. */
module MatchAcceptance {
  import opened Arithmetic
  import opened Words
  import opened Ledger
  import opened MatchCall
  import opened Settlement
  import opened SettlementLaws
  import opened CallSettlement
  import opened MatchTheorems

  // ----- one order and one pair

  /** An order that may be filled by so much. */
  ghost predicate Stands(o: MatchOrder, fill: nat, v: Venue) {
    && o.maker != 0 && 0 < fill <= o.makerAmount && 0 < o.takerAmount && (o.tokenId == v.idA || o.tokenId == v.idB)
    && (o.signer == o.maker || o.signatureType == PolyProxy || o.signatureType == PolyGnosisSafe)
  }

  /** What an order asks for a fill, rounded down. */
  ghost function Asked(o: MatchOrder, fill: nat): nat
    requires o.makerAmount > 0
  {
    FloorBounds(fill * o.takerAmount, o.makerAmount);
    fill * o.takerAmount / o.makerAmount
  }

  ghost predicate Positive(o: MatchOrder) { o.makerAmount > 0 && o.takerAmount > 0 }

  /** Cash per position: a buyer gives cash for positions, a seller positions for cash. */
  ghost function UnitPrice(o: MatchOrder): real
    requires Positive(o)
  {
    if o.side == Buy then o.makerAmount as real / o.takerAmount as real
    else o.takerAmount as real / o.makerAmount as real
  }

  /** A buyer and a seller of one position agree when the buyer's price is not below the seller's.
      Two buyers of both positions agree when they pay for a unit of collateral together, and two
      sellers when a unit pays them both. */
  ghost predicate PricesAgree(taker: MatchOrder, maker: MatchOrder)
    requires Positive(taker) && Positive(maker)
  {
    match (taker.side, maker.side)
    case (Buy, Sell) => taker.tokenId == maker.tokenId && UnitPrice(taker) >= UnitPrice(maker)
    case (Sell, Buy) => taker.tokenId == maker.tokenId && UnitPrice(maker) >= UnitPrice(taker)
    case (Buy, Buy) => taker.tokenId != maker.tokenId && UnitPrice(taker) + UnitPrice(maker) >= 1.0
    case (Sell, Sell) => taker.tokenId != maker.tokenId && UnitPrice(taker) + UnitPrice(maker) <= 1.0
  }

  /** The products by which the program compares two prices are words. */
  ghost predicate ProductsFit(taker: MatchOrder, maker: MatchOrder) {
    if taker.side != maker.side then
      Fits(taker.makerAmount * maker.makerAmount) && Fits(taker.takerAmount * maker.takerAmount)
    else
      && Fits(taker.takerAmount * maker.makerAmount + maker.takerAmount * taker.makerAmount)
      && (if taker.side == Buy then Fits(taker.takerAmount * maker.takerAmount)
          else Fits(taker.makerAmount * maker.makerAmount))
  }

  lemma QuotientsCompare(a: int, b: int, c: int, d: int)
    requires b > 0 && d > 0
    ensures a as real / b as real >= c as real / d as real <==> a * d >= c * b
  {
    var x, y := a as real / b as real, c as real / d as real;
    var bd := b as real * d as real;
    assert x * b as real == a as real && y * d as real == c as real;
    RealTimes(x, b as real, d as real);
    RealTimes(y, d as real, b as real);
    assert x * bd == a as real * d as real && y * bd == c as real * b as real;
    RealScale(x, y, bd);
    assert a as real * d as real == (a * d) as real && c as real * b as real == (c * b) as real;
  }

  lemma QuotientsAdd(a: int, b: int, c: int, d: int)
    requires b > 0 && d > 0
    ensures a as real / b as real + c as real / d as real >= 1.0 <==> a * d + c * b >= b * d
    ensures a as real / b as real + c as real / d as real <= 1.0 <==> a * d + c * b <= b * d
  {
    var x, y := a as real / b as real, c as real / d as real;
    var bd := b as real * d as real;
    assert x * b as real == a as real && y * d as real == c as real;
    RealTimes(x, b as real, d as real);
    RealTimes(y, d as real, b as real);
    RealSum(x, y, bd);
    assert x * bd == a as real * d as real && y * bd == c as real * b as real;
    RealScale(x + y, 1.0, bd);
    RealScale(1.0, x + y, bd);
    assert a as real * d as real == (a * d) as real && c as real * b as real == (c * b) as real;
    assert b as real * d as real == (b * d) as real;
  }

  lemma RealTimes(x: real, y: real, z: real)
    ensures (x * y) * z == x * (y * z) && x * (z * y) == x * (y * z)
  {
  }

  lemma RealSum(x: real, y: real, z: real)
    ensures (x + y) * z == x * z + y * z
  {
  }

  lemma RealScale(x: real, y: real, k: real)
    requires k > 0.0
    ensures x >= y <==> x * k >= y * k
  {
  }

  /** Agreement of prices, in whole numbers. */
  lemma PricesInProducts(taker: MatchOrder, maker: MatchOrder)
    requires Positive(taker) && Positive(maker)
    ensures var a, b, c, d := taker.makerAmount, taker.takerAmount, maker.makerAmount, maker.takerAmount;
      PricesAgree(taker, maker) <==>
        if taker.side != maker.side then taker.tokenId == maker.tokenId && a * c >= b * d
        else
          && taker.tokenId != maker.tokenId
          && if taker.side == Buy then b * c + d * a >= b * d else b * c + d * a <= a * c
  {
    hide WordSpan;
    var a, b, c, d := taker.makerAmount, taker.takerAmount, maker.makerAmount, maker.takerAmount;
    match (taker.side, maker.side)
    case (Buy, Sell) => QuotientsCompare(a, b, d, c);
    case (Sell, Buy) => QuotientsCompare(c, d, b, a);
    case (Buy, Buy) => QuotientsAdd(a, b, c, d);
    case (Sell, Sell) => QuotientsAdd(b, a, d, c);
  }

  /** The program's two tests of a pair, by prices. */
  lemma CrossingIsFair(taker: MatchOrder, maker: MatchOrder)
    requires Positive(taker) && Positive(maker) && taker.side != maker.side && taker.tokenId == maker.tokenId
    ensures Crosses(taker, maker) == Some(true) <==> PricesAgree(taker, maker) && ProductsFit(taker, maker)
  {
    hide Fits, PricesAgree;
    PricesInProducts(taker, maker);
  }

  lemma PairIsFair(taker: MatchOrder, maker: MatchOrder, v: Venue)
    requires Positive(taker) && Positive(maker)
    requires v.Lists(taker.tokenId) && v.Lists(maker.tokenId)
    ensures ValidBatchPair(taker, maker, v) == Some(true) <==> PricesAgree(taker, maker) && ProductsFit(taker, maker)
  {
    PricesInProducts(taker, maker);
    if taker.side != maker.side {
      if taker.tokenId == maker.tokenId { CrossingIsFair(taker, maker); }
    } else if taker.tokenId != maker.tokenId {
      SumIsFair(taker, maker, v);
    }
    hide Fits, PricesAgree, ProductsFit, Crosses, CheckedMul, CheckedAdd;
  }

  lemma SumIsFair(taker: MatchOrder, maker: MatchOrder, v: Venue)
    requires Positive(taker) && Positive(maker) && taker.side == maker.side && taker.tokenId != maker.tokenId
    requires v.Lists(taker.tokenId) && v.Lists(maker.tokenId)
    ensures ValidBatchPair(taker, maker, v) == Some(true) <==> PricesAgree(taker, maker) && ProductsFit(taker, maker)
  {
    hide PricesAgree, WordSpan;
    PricesInProducts(taker, maker);
    ProductsAreNat(taker.takerAmount, maker.makerAmount);
    ProductsAreNat(maker.takerAmount, taker.makerAmount);
  }

  lemma ProductsAreNat(a: nat, b: nat)
    ensures a * b >= 0
  {
  }

  // ----- the whole call

  /** What the maker orders bring and ask for, buyers and sellers apart. */
  datatype What = CashGiven | TokensAsked | TokensGiven | CashAsked | BuyerFees | SellerFees

  ghost function Piece(call: MatchOrdersCall, i: nat, what: What): nat
    requires call.Aligned() && i < |call.makerOrders|
  {
    var o, fill, fee := call.makerOrders[i], call.makerFills[i], call.makerFees[i];
    var asked := if o.makerAmount > 0 then Asked(o, fill) else 0;
    match what
    case CashGiven => if o.side == Buy then fill else 0
    case TokensAsked => if o.side == Buy then asked else 0
    case TokensGiven => if o.side == Sell then fill else 0
    case CashAsked => if o.side == Sell then asked else 0
    case BuyerFees => if o.side == Buy then fee else 0
    case SellerFees => if o.side == Sell then fee else 0
  }

  ghost function Gathered(call: MatchOrdersCall, n: nat, what: What): nat
    requires call.Aligned() && n <= |call.makerOrders|
  {
    if n == 0 then 0 else Gathered(call, n - 1, what) + Piece(call, n - 1, what)
  }

  ghost function Of(call: MatchOrdersCall, what: What): nat
    requires call.Aligned()
  {
    Gathered(call, |call.makerOrders|, what)
  }

  /** Every maker trades the taker's own position, from the other side. */
  ghost predicate IsStraight(call: MatchOrdersCall) {
    forall i :: 0 <= i < |call.makerOrders| ==>
      call.makerOrders[i].side != call.takerOrder.side && call.makerOrders[i].tokenId == call.takerOrder.tokenId
  }

  /** What the taker gives: in a straight match what the makers ask for; for a mint the part of the
      collateral that the makers leave to it; in a merge its whole fill. */
  ghost function Making(call: MatchOrdersCall): int
    requires call.Aligned()
  {
    if IsStraight(call) then Of(call, CashAsked) + Of(call, TokensAsked)
    else if call.takerOrder.side == Buy then Of(call, TokensAsked) + Of(call, CashAsked) - Of(call, CashGiven)
    else call.takerAmounts.fill
  }

  /** What the taker gets: all that the makers give, or the rest of what is minted or merged. */
  ghost function Taking(call: MatchOrdersCall): int
    requires call.Aligned()
  {
    if IsStraight(call) then Of(call, CashGiven) + Of(call, TokensGiven)
    else if call.takerOrder.side == Buy then Of(call, TokensGiven) + Of(call, TokensAsked)
    else Of(call, CashGiven) + Of(call, TokensGiven) - Of(call, CashAsked)
  }

  ghost predicate EveryOrderStands(call: MatchOrdersCall, v: Venue)
    requires call.Aligned()
  {
    && Stands(call.takerOrder, call.takerAmounts.fill, v)
    && forall i :: 0 <= i < |call.makerOrders| ==> Stands(call.makerOrders[i], call.makerFills[i], v)
  }

  ghost predicate EveryPriceAgrees(call: MatchOrdersCall, v: Venue)
    requires call.Aligned() && EveryOrderStands(call, v)
  {
    forall i :: 0 <= i < |call.makerOrders| ==> PricesAgree(call.takerOrder, call.makerOrders[i])
  }

  /** The taker gets what it was promised and gives no more than its fill. A merge uses the fill up
      and burns something. */
  ghost predicate IsBalanced(call: MatchOrdersCall)
    requires call.Aligned()
  {
    && Taking(call) == call.takerAmounts.receive && 0 <= Making(call) <= call.takerAmounts.fill
    && (!IsStraight(call) && call.takerOrder.side == Sell ==>
          Of(call, TokensAsked) + Of(call, TokensGiven) == call.takerAmounts.fill && Of(call, TokensGiven) > 0)
  }

  /** A fee is at most a tenth of the cash that its order gives or gets. */
  ghost predicate FeeIsSmall(side: TradeSide, fee: nat, making: int, taking: int) {
    var cash := if side == Buy then making else taking;
    10 * fee <= cash && Fits(1_000 * cash)
  }

  ghost predicate EveryFeeIsSmall(call: MatchOrdersCall, v: Venue)
    requires call.Aligned() && EveryOrderStands(call, v)
  {
    && FeeIsSmall(call.takerOrder.side, call.takerAmounts.fee, Making(call), Taking(call))
    && forall i :: 0 <= i < |call.makerOrders| ==>
         FeeIsSmall(call.makerOrders[i].side, call.makerFees[i], call.makerFills[i],
                    Asked(call.makerOrders[i], call.makerFills[i]))
  }

  ghost function EveryFee(call: MatchOrdersCall): nat
    requires call.Aligned()
  {
    call.takerAmounts.fee + Of(call, BuyerFees) + Of(call, SellerFees)
  }

  /** The products and sums that the program forms on the way are words. */
  ghost predicate NothingOverflows(call: MatchOrdersCall)
    requires call.Aligned()
  {
    && TakingsFit(call)
    && (forall i :: 0 <= i < |call.makerOrders| ==> ProductsFit(call.takerOrder, call.makerOrders[i]))
    && (if IsStraight(call) then
          && Fits(EveryFee(call)) && FitsProduct(Making(call), call.takerOrder.takerAmount)
          && (call.takerOrder.side == Sell && EveryFee(call) > 0 ==>
                forall i :: 0 <= i < |call.makerOrders| ==> FitsSum(call.makerFills[i], call.makerFees[i]))
        else if call.takerOrder.side == Buy then
          Fits(call.takerAmounts.fill as int + call.takerAmounts.fee + Of(call, CashGiven) + Of(call, BuyerFees))
          && Fits(EveryFee(call))
        else
          Fits(Of(call, CashGiven) + Of(call, BuyerFees) + Of(call, TokensGiven)))
  }

  ghost predicate FitsProduct(a: int, b: int) { Fits(a * b) }
  ghost predicate FitsSum(a: int, b: int) { Fits(a + b) }

  ghost predicate TakingsFit(call: MatchOrdersCall)
    requires call.Aligned()
  {
    forall i :: 0 <= i < |call.makerOrders| ==> FitsProduct(call.makerFills[i], call.makerOrders[i].takerAmount)
  }

  /** A call that ought to settle. */
  ghost predicate IsFair(call: MatchOrdersCall, v: Venue)
    requires call.Aligned()
  {
    && EveryOrderStands(call, v) && EveryPriceAgrees(call, v) && IsBalanced(call) && EveryFeeIsSmall(call, v)
    && NothingOverflows(call)
  }

  // ----- the program's steps against that

  lemma OrderStands(o: MatchOrder, fill: U256, v: Venue)
    ensures Stands(o, fill, v) <==> OrderUsable(o, v) && FillUsable(o, fill)
  {
    hide WordSpan;
  }

  lemma AskedIsTaking(o: MatchOrder, fill: U256)
    requires o.makerAmount > 0
    ensures CheckedMulDiv(fill, o.takerAmount, o.makerAmount).Some? <==> FitsProduct(fill, o.takerAmount)
    ensures CheckedMulDiv(fill, o.takerAmount, o.makerAmount).Some? ==>
      CheckedMulDiv(fill, o.takerAmount, o.makerAmount).value == Asked(o, fill)
  {
    hide WordSpan;
    ProductsAreNat(fill, o.takerAmount);
  }

  lemma UsableIsStanding(call: MatchOrdersCall, v: Venue)
    requires call.Aligned()
    ensures CallUsable(call, v) <==> EveryOrderStands(call, v) && TakingsFit(call)
  {
    hide WordSpan, OrderUsable, FillUsable, CheckedMulDiv, Stands, Asked, FitsProduct;
    OrderStands(call.takerOrder, call.takerAmounts.fill, v);
    forall i | 0 <= i < |call.makerOrders|
      ensures MakerUsable(call, v, i) <==>
        Stands(call.makerOrders[i], call.makerFills[i], v)
        && FitsProduct(call.makerFills[i], call.makerOrders[i].takerAmount)
    {
      MakerStands(call, v, i);
    }
  }

  lemma MakerStands(call: MatchOrdersCall, v: Venue, i: nat)
    requires call.Aligned() && i < |call.makerOrders|
    ensures MakerUsable(call, v, i) <==>
      Stands(call.makerOrders[i], call.makerFills[i], v)
      && FitsProduct(call.makerFills[i], call.makerOrders[i].takerAmount)
  {
    hide WordSpan, CheckedMulDiv, FitsProduct;
    OrderStands(call.makerOrders[i], call.makerFills[i], v);
    if call.makerOrders[i].makerAmount > 0 { AskedIsTaking(call.makerOrders[i], call.makerFills[i]); }
  }

  function PartOf(what: What): Part {
    match what
    case CashGiven => BuyFill
    case TokensAsked => BuyTaking
    case TokensGiven => SellFill
    case CashAsked => SellTaking
    case BuyerFees => BuyFee
    case SellerFees => SellFee
  }

  lemma LegIs(call: MatchOrdersCall, v: Venue, hash: MatchOrder -> Hash, i: nat)
    requires call.Aligned() && EveryOrderStands(call, v) && TakingsFit(call) && i < |call.makerOrders|
    ensures var leg := LegOf(call, hash, i);
      && leg.order == call.makerOrders[i] && leg.fill == call.makerFills[i] && leg.fee == call.makerFees[i]
      && leg.order.makerAmount > 0 && leg.taking == Asked(leg.order, leg.fill)
    ensures forall what :: Share(LegOf(call, hash, i), PartOf(what)) == Piece(call, i, what)
  {
    hide WordSpan, CheckedMulDiv, Asked, FitsProduct;
    AskedIsTaking(call.makerOrders[i], call.makerFills[i]);
    assert Stands(call.makerOrders[i], call.makerFills[i], v);
  }

  lemma {:induction false} SumIsGathered(call: MatchOrdersCall, v: Venue, hash: MatchOrder -> Hash, n: nat, what: What)
    requires call.Aligned() && EveryOrderStands(call, v) && TakingsFit(call) && n <= |call.makerOrders|
    ensures Sum(MatchOf(call, v, hash).legs, n, PartOf(what)) == Gathered(call, n, what)
  {
    hide WordSpan, LegOf, Share, Piece, EveryOrderStands, TakingsFit, PartOf;
    if n > 0 {
      SumIsGathered(call, v, hash, n - 1, what);
      LegIs(call, v, hash, n - 1);
    }
  }

  // ----- the three branches

  lemma CapIsSmall(side: TradeSide, fee: U256, making: U256, taking: U256)
    ensures var cash := if side == Buy then making else taking;
      FeeWithinCap(fee, cash) == Some(true) <==> FeeIsSmall(side, fee, making, taking)
  {
    hide WordSpan;
    var cash := if side == Buy then making else taking;
    TenthOf(cash, fee);
  }

  lemma TenthOf(cash: nat, fee: nat)
    ensures cash * MAX_FEE_RATE_BPS >= 0 && cash * MAX_FEE_RATE_BPS == 1_000 * cash
    ensures 0 <= cash * MAX_FEE_RATE_BPS / BPS
    ensures fee <= cash * MAX_FEE_RATE_BPS / BPS <==> 10 * fee <= cash
  {
  }

  /** The six sums of the legs. */
  lemma SumsAreGathered(call: MatchOrdersCall, v: Venue, hash: MatchOrder -> Hash)
    requires call.Aligned() && EveryOrderStands(call, v) && TakingsFit(call)
    ensures var m := MatchOf(call, v, hash);
      && All(m, BuyFill) == Of(call, CashGiven) && All(m, BuyTaking) == Of(call, TokensAsked)
      && All(m, SellFill) == Of(call, TokensGiven) && All(m, SellTaking) == Of(call, CashAsked)
      && All(m, BuyFee) == Of(call, BuyerFees) && All(m, SellFee) == Of(call, SellerFees)
  {
    hide WordSpan, Sum, Gathered, LegOf, EveryOrderStands, TakingsFit;
    var n := |call.makerOrders|;
    SumIsGathered(call, v, hash, n, CashGiven);
    SumIsGathered(call, v, hash, n, TokensAsked);
    SumIsGathered(call, v, hash, n, TokensGiven);
    SumIsGathered(call, v, hash, n, CashAsked);
    SumIsGathered(call, v, hash, n, BuyerFees);
    SumIsGathered(call, v, hash, n, SellerFees);
  }

  lemma {:induction false} LegFeeInAll(legs: seq<Leg>, n: nat, i: nat)
    requires i < n <= |legs|
    ensures legs[i].fee <= Fees(legs, n)
  {
    hide WordSpan;
    if i < n - 1 {
      LegFeeInAll(legs, n - 1, i);
    }
  }

  lemma AnyFeesIsSome(m: Match)
    ensures AnyFees(m) <==> m.amounts.fee + AllFees(m) > 0
  {
    hide WordSpan, Sum;
    if AnyFees(m) {
      if m.amounts.fee == 0 {
        var i :| 0 <= i < |m.legs| && m.legs[i].fee > 0;
        LegFeeInAll(m.legs, |m.legs|, i);
      }
    } else {
      NoFeesInAll(m, |m.legs|);
    }
  }

  lemma CapsAreSmall(call: MatchOrdersCall, v: Venue, hash: MatchOrder -> Hash, built: Built)
    requires call.Aligned() && EveryOrderStands(call, v) && TakingsFit(call)
    requires built.making == Making(call) && built.taking == Taking(call) && Fits(built.making) && Fits(built.taking)
    ensures CapsHold(MatchOf(call, v, hash), built) <==> EveryFeeIsSmall(call, v)
  {
    hide WordSpan, FeeWithinCap, FeeIsSmall, Making, Taking, Asked, LegOf, TakingsFit;
    CapIsSmall(call.takerOrder.side, call.takerAmounts.fee, built.making, built.taking);
    forall i | 0 <= i < |call.makerOrders|
      ensures call.makerOrders[i].makerAmount > 0
      ensures LegCapped(MatchOf(call, v, hash).legs[i]) <==>
        FeeIsSmall(call.makerOrders[i].side, call.makerFees[i], call.makerFills[i],
                   Asked(call.makerOrders[i], call.makerFills[i]))
    {
      LegIs(call, v, hash, i);
      var leg := LegOf(call, hash, i);
      CapIsSmall(leg.order.side, leg.fee, leg.fill, leg.taking);
    }
  }

  /** What a straight match asks of one maker order. */
  ghost predicate StraightMakerFits(call: MatchOrdersCall, v: Venue, i: nat)
    requires call.Aligned() && EveryOrderStands(call, v) && i < |call.makerOrders|
  {
    && PricesAgree(call.takerOrder, call.makerOrders[i]) && ProductsFit(call.takerOrder, call.makerOrders[i])
    && (call.takerOrder.side == Sell && EveryFee(call) > 0 ==> FitsSum(call.makerFills[i], call.makerFees[i]))
  }

  lemma StraightLeg(call: MatchOrdersCall, v: Venue, hash: MatchOrder -> Hash, i: nat)
    requires call.Aligned() && EveryOrderStands(call, v) && TakingsFit(call) && IsStraight(call)
    requires i < |call.makerOrders| && LegCapped(LegOf(call, hash, i))
    ensures NormalLegOk(MatchOf(call, v, hash), LegOf(call, hash, i)) <==> StraightMakerFits(call, v, i)
  {
    hide WordSpan, Crosses, FeeWithinCap, PricesAgree, ProductsFit, Asked, TakingsFit, AnyFees, Of;
    var m, leg := MatchOf(call, v, hash), LegOf(call, hash, i);
    LegIs(call, v, hash, i);
    CrossingIsFair(call.takerOrder, call.makerOrders[i]);
    AnyFeesIsSome(m);
    SumsAreGathered(call, v, hash);
    CapCoversFee(leg.fee, CashBasis(leg.order, leg.fill, leg.taking));
  }

  /** The sums of a straight match, before its legs are looked at. */
  ghost predicate StraightSumsFit(call: MatchOrdersCall)
    requires call.Aligned()
  {
    && Fits(EveryFee(call)) && FitsProduct(Making(call), call.takerOrder.takerAmount) && IsBalanced(call)
  }

  lemma StraightSums(call: MatchOrdersCall, v: Venue, hash: MatchOrder -> Hash)
    requires call.Aligned() && EveryOrderStands(call, v) && TakingsFit(call) && IsStraight(call)
    ensures var m := MatchOf(call, v, hash);
      && AllTakings(m) == Making(call) && AllFills(m) == Taking(call)
      && m.amounts.fee + AllFees(m) == EveryFee(call)
  {
    hide WordSpan, Sum, Gathered, LegOf, EveryOrderStands, TakingsFit, IsStraight;
    SumsAreGathered(call, v, hash);
  }

  lemma StraightAccepted(call: MatchOrdersCall, v: Venue, hash: MatchOrder -> Hash)
    requires call.Aligned() && IsFair(call, v) && IsStraight(call)
    ensures NormalAccepts(MatchOf(call, v, hash))
    ensures CapsHold(MatchOf(call, v, hash), NormalOutcome(MatchOf(call, v, hash)))
  {
    hide WordSpan, Sum, Of, Making, Taking, FeeWithinCap, Crosses, PricesAgree, ProductsFit, Asked, LegOf, Fees;
    hide CheckedMulDiv, NormalAmountsOk, RoundedDown, AnyFees;
    var m := MatchOf(call, v, hash);
    StraightSums(call, v, hash);
    CapsAreSmall(call, v, hash, NormalOutcome(m));
    forall i | 0 <= i < |m.legs|
      ensures NormalLegOk(m, m.legs[i]) && RoundedDown(m.legs[i]) && m.legs[i].order.takerAmount > 0
    {
      assert LegCapped(m.legs[i]);
      StraightLeg(call, v, hash, i);
      LegIs(call, v, hash, i);
      IsRounded(m.legs[i]);
    }
    AskedIsTaking(call.takerOrder, Word(Making(call)));
    MinimumTakeIsRedundant(m);
    CapCoversFee(m.amounts.fee, CashBasis(m.taker, Word(Making(call)), Word(Taking(call))));
  }

  lemma IsRounded(leg: Leg)
    requires leg.order.makerAmount > 0 && leg.taking == Asked(leg.order, leg.fill)
    ensures RoundedDown(leg)
  {
    hide WordSpan;
  }

  lemma StraightRequired(call: MatchOrdersCall, v: Venue, hash: MatchOrder -> Hash)
    requires call.Aligned() && EveryOrderStands(call, v) && TakingsFit(call) && IsStraight(call)
    requires NormalAccepts(MatchOf(call, v, hash))
    requires CapsHold(MatchOf(call, v, hash), NormalOutcome(MatchOf(call, v, hash)))
    ensures IsFair(call, v)
  {
    hide WordSpan, Sum, Of, Making, Taking, FeeWithinCap, Crosses, PricesAgree, ProductsFit, Asked, LegOf, Fees;
    hide CheckedMulDiv, NormalAmountsOk, AnyFees, FeeIsSmall;
    var m := MatchOf(call, v, hash);
    StraightSums(call, v, hash);
    CapsAreSmall(call, v, hash, NormalOutcome(m));
    forall i | 0 <= i < |m.legs|
      ensures StraightMakerFits(call, v, i)
    {
      assert NormalLegOk(m, m.legs[i]) && LegCapped(m.legs[i]);
      StraightLeg(call, v, hash, i);
    }
    AskedIsTaking(call.takerOrder, AllTakings(m));
    assert EveryPriceAgrees(call, v) by {
      forall i | 0 <= i < |call.makerOrders|
        ensures PricesAgree(call.takerOrder, call.makerOrders[i])
      {
        assert StraightMakerFits(call, v, i);
      }
    }
    assert IsBalanced(call);
    assert EveryFeeIsSmall(call, v);
    assert StraightSumsFit(call);
    forall i | 0 <= i < |call.makerOrders|
      ensures ProductsFit(call.takerOrder, call.makerOrders[i])
      ensures call.takerOrder.side == Sell && EveryFee(call) > 0 ==> FitsSum(call.makerFills[i], call.makerFees[i])
    {
      assert StraightMakerFits(call, v, i);
    }
  }

  // ----- mint and merge

  lemma BatchLeg(call: MatchOrdersCall, v: Venue, hash: MatchOrder -> Hash, i: nat)
    requires call.Aligned() && EveryOrderStands(call, v) && TakingsFit(call) && i < |call.makerOrders|
    ensures ValidBatchPair(call.takerOrder, LegOf(call, hash, i).order, v) == Some(true) <==>
      PricesAgree(call.takerOrder, call.makerOrders[i]) && ProductsFit(call.takerOrder, call.makerOrders[i])
  {
    hide WordSpan, ValidBatchPair, PricesAgree, ProductsFit, Asked, TakingsFit;
    PairIsFair(call.takerOrder, call.makerOrders[i], v);
  }

  /** When the fees are small, sellers cover theirs. */
  lemma {:induction false} SmallFeesAreCovered(m: Match, n: nat)
    requires n <= |m.legs| && forall i :: 0 <= i < |m.legs| ==> LegCapped(m.legs[i])
    ensures Sum(m.legs, n, SellFee) <= Sum(m.legs, n, SellTaking)
    ensures SellersCoverFees(m.legs)
  {
    hide WordSpan, FeeWithinCap;
    forall i | 0 <= i < |m.legs|
      ensures m.legs[i].order.side == Sell ==> m.legs[i].fee <= m.legs[i].taking
    {
      assert LegCapped(m.legs[i]);
      CapCoversFee(m.legs[i].fee, CashBasis(m.legs[i].order, m.legs[i].fill, m.legs[i].taking));
    }
    if n > 0 {
      SmallFeesAreCovered(m, n - 1);
    }
  }

  /** A buyer's gross amount is at most that of all buyers. */
  lemma {:induction false} GrossInAll(legs: seq<Leg>, n: nat, i: nat)
    requires i < n <= |legs| && legs[i].order.side == Buy
    ensures legs[i].fill + legs[i].fee <= Sum(legs, n, BuyFill) + Sum(legs, n, BuyFee)
  {
    hide WordSpan;
    if i < n - 1 {
      GrossInAll(legs, n - 1, i);
    }
  }

  lemma MintSumsAre(call: MatchOrdersCall, v: Venue, hash: MatchOrder -> Hash)
    requires call.Aligned() && EveryOrderStands(call, v) && TakingsFit(call) && !IsStraight(call)
    requires call.takerOrder.side == Buy
    ensures var m := MatchOf(call, v, hash);
      && m.amounts.fill - MintRefund(m) == Making(call) && All(m, SellFill) + All(m, BuyTaking) == Taking(call)
      && m.amounts.fee + AllFees(m) == EveryFee(call)
      && All(m, BuyFill) == Of(call, CashGiven) && All(m, BuyFee) == Of(call, BuyerFees)
  {
    hide WordSpan, Sum, Gathered, LegOf, EveryOrderStands, TakingsFit, IsStraight;
    SumsAreGathered(call, v, hash);
  }

  lemma MintAccepted(call: MatchOrdersCall, v: Venue, hash: MatchOrder -> Hash)
    requires call.Aligned() && IsFair(call, v) && !IsStraight(call) && call.takerOrder.side == Buy
    ensures MintAccepts(MatchOf(call, v, hash))
    ensures CapsHold(MatchOf(call, v, hash), MintOutcome(MatchOf(call, v, hash)))
  {
    hide WordSpan, Of, Making, Taking, FeeWithinCap, ValidBatchPair, PricesAgree, ProductsFit, Asked, LegOf, Fees;
    hide IsStraight, FeeIsSmall, Sum;
    var m := MatchOf(call, v, hash);
    MintSumsAre(call, v, hash);
    var amounts := Built(MintMatch, Making(call), Taking(call), 0, 0, []);
    CapsAreSmall(call, v, hash, amounts);
    forall i | 0 <= i < |m.legs|
      ensures IntakeOk(m, m.legs[i]) && LegCapped(m.legs[i])
    {
      BatchLeg(call, v, hash, i);
      if m.legs[i].order.side == Buy { GrossInAll(m.legs, |m.legs|, i); }
    }
    SmallFeesAreCovered(m, |m.legs|);
    assert PayoutFits(m);
    assert MintAccepts(m);
    assert CapsHold(m, amounts) ==> CapsHold(m, MintOutcome(m));
  }

  lemma MintRequired(call: MatchOrdersCall, v: Venue, hash: MatchOrder -> Hash)
    requires call.Aligned() && EveryOrderStands(call, v) && TakingsFit(call) && !IsStraight(call)
    requires call.takerOrder.side == Buy && MintAccepts(MatchOf(call, v, hash))
    requires CapsHold(MatchOf(call, v, hash), MintOutcome(MatchOf(call, v, hash)))
    ensures IsFair(call, v)
  {
    hide WordSpan, Of, Making, Taking, FeeWithinCap, ValidBatchPair, PricesAgree, ProductsFit, Asked, LegOf, Fees;
    hide IsStraight, FeeIsSmall, Sum, PayoutFits;
    var m := MatchOf(call, v, hash);
    MintSumsAre(call, v, hash);
    CapsAreSmall(call, v, hash, MintOutcome(m));
    forall i | 0 <= i < |call.makerOrders|
      ensures PricesAgree(call.takerOrder, call.makerOrders[i]) && ProductsFit(call.takerOrder, call.makerOrders[i])
    {
      assert IntakeOk(m, m.legs[i]);
      BatchLeg(call, v, hash, i);
    }
    assert IsBalanced(call);
    assert EveryFeeIsSmall(call, v);
    assert NothingOverflows(call);
  }

  lemma MergeSumsAre(call: MatchOrdersCall, v: Venue, hash: MatchOrder -> Hash)
    requires call.Aligned() && EveryOrderStands(call, v) && TakingsFit(call) && !IsStraight(call)
    requires call.takerOrder.side == Sell
    ensures var m := MatchOf(call, v, hash);
      && MergeTaking(m) == Taking(call) && Making(call) == m.amounts.fill
      && All(m, BuyFill) == Of(call, CashGiven) && All(m, BuyFee) == Of(call, BuyerFees)
      && All(m, SellFill) == Of(call, TokensGiven) && All(m, BuyTaking) == Of(call, TokensAsked)
  {
    hide WordSpan, Sum, Gathered, LegOf, EveryOrderStands, TakingsFit, IsStraight;
    SumsAreGathered(call, v, hash);
  }

  lemma MergeAccepted(call: MatchOrdersCall, v: Venue, hash: MatchOrder -> Hash)
    requires call.Aligned() && IsFair(call, v) && !IsStraight(call) && call.takerOrder.side == Sell
    ensures MergeAccepts(MatchOf(call, v, hash))
    ensures CapsHold(MatchOf(call, v, hash), MergeOutcome(MatchOf(call, v, hash)))
  {
    hide WordSpan, Of, Making, Taking, FeeWithinCap, ValidBatchPair, PricesAgree, ProductsFit, Asked, LegOf, Fees;
    hide IsStraight, FeeIsSmall, Sum;
    var m := MatchOf(call, v, hash);
    MergeSumsAre(call, v, hash);
    var amounts := Built(MergeMatch, Making(call), Taking(call), 0, 0, []);
    CapsAreSmall(call, v, hash, amounts);
    forall i | 0 <= i < |m.legs|
      ensures IntakeOk(m, m.legs[i]) && LegCapped(m.legs[i])
    {
      BatchLeg(call, v, hash, i);
      if m.legs[i].order.side == Buy { GrossInAll(m.legs, |m.legs|, i); }
    }
    SmallFeesAreCovered(m, |m.legs|);
    CapCoversFee(m.amounts.fee, CashBasis(m.taker, Word(Making(call)), Word(Taking(call))));
    assert PayoutFits(m);
    assert MergeAccepts(m);
    assert CapsHold(m, amounts) ==> CapsHold(m, MergeOutcome(m));
  }

  lemma MergeRequired(call: MatchOrdersCall, v: Venue, hash: MatchOrder -> Hash)
    requires call.Aligned() && EveryOrderStands(call, v) && TakingsFit(call) && !IsStraight(call)
    requires call.takerOrder.side == Sell && MergeAccepts(MatchOf(call, v, hash))
    requires CapsHold(MatchOf(call, v, hash), MergeOutcome(MatchOf(call, v, hash)))
    ensures IsFair(call, v)
  {
    hide WordSpan, Of, Making, Taking, FeeWithinCap, ValidBatchPair, PricesAgree, ProductsFit, Asked, LegOf, Fees;
    hide IsStraight, FeeIsSmall, Sum, PayoutFits;
    var m := MatchOf(call, v, hash);
    MergeSumsAre(call, v, hash);
    CapsAreSmall(call, v, hash, MergeOutcome(m));
    forall i | 0 <= i < |call.makerOrders|
      ensures PricesAgree(call.takerOrder, call.makerOrders[i]) && ProductsFit(call.takerOrder, call.makerOrders[i])
    {
      assert IntakeOk(m, m.legs[i]);
      BatchLeg(call, v, hash, i);
    }
    assert IsBalanced(call);
    assert EveryFeeIsSmall(call, v);
    assert NothingOverflows(call);
  }

  // ----- when a call settles

  lemma BranchIsStraight(call: MatchOrdersCall)
    ensures TheBranch(call).NormalMatch? <==> IsStraight(call)
    ensures TheBranch(call).MintMatch? <==> !IsStraight(call) && call.takerOrder.side == Buy
  {
    var makers := call.makerOrders;
    if IsStraight(call) {
      assert forall order :: order in makers ==> exists i :: 0 <= i < |makers| && makers[i] == order;
    } else {
      var i :| 0 <= i < |makers|
        && !(makers[i].side != call.takerOrder.side && makers[i].tokenId == call.takerOrder.tokenId);
      assert makers[i] in makers;
    }
  }

  /** A match is accepted exactly when the call is fair, and then gives and takes these amounts. */
  lemma FairIsAccepted(call: MatchOrdersCall, v: Venue, hash: MatchOrder -> Hash)
    requires call.Aligned()
    ensures var m, branch := MatchOf(call, v, hash), TheBranch(call);
      && (IsFair(call, v) <==> CallUsable(call, v) && Accepts(m, branch) && CapsHold(m, Outcome(m, branch)))
      && (IsFair(call, v) ==>
            Outcome(m, branch).making == Making(call) && Outcome(m, branch).taking == Taking(call))
  {
    hide WordSpan, IsBalanced, EveryPriceAgrees, EveryFeeIsSmall, EveryOrderStands, TakingsFit, CallUsable, CapsHold;
    hide NormalAccepts, MintAccepts, MergeAccepts, IsStraight, Making, Taking, MintRefund, MergeTaking, Sum, LegOf;
    hide ProductsFit;
    var m, branch := MatchOf(call, v, hash), TheBranch(call);
    BranchIsStraight(call);
    UsableIsStanding(call, v);
    if EveryOrderStands(call, v) && TakingsFit(call) {
      match branch
      case NormalMatch =>
        StraightSums(call, v, hash);
        if IsFair(call, v) { StraightAccepted(call, v, hash); }
        if NormalAccepts(m) && CapsHold(m, NormalOutcome(m)) { StraightRequired(call, v, hash); }
      case MintMatch =>
        MintSumsAre(call, v, hash);
        if IsFair(call, v) { MintAccepted(call, v, hash); }
        if MintAccepts(m) && CapsHold(m, MintOutcome(m)) { MintRequired(call, v, hash); }
      case MergeMatch =>
        MergeSumsAre(call, v, hash);
        if IsFair(call, v) { MergeAccepted(call, v, hash); }
        if MergeAccepts(m) && CapsHold(m, MergeOutcome(m)) { MergeRequired(call, v, hash); }
    }
  }

  /** The Exchange makes no order and is nobody else. */
  ghost predicate ExchangeStandsAside(call: MatchOrdersCall, v: Venue) {
    && v.exchange != 0 && v.exchange != v.feeReceiver && call.takerOrder.maker != v.exchange
    && forall i :: 0 <= i < |call.makerOrders| ==> call.makerOrders[i].maker != v.exchange
  }

  /** Whether an account is the maker of some order. */
  ghost predicate TakesPart(call: MatchOrdersCall, owner: Address) {
    call.takerOrder.maker == owner || exists order :: order in call.makerOrders && order.maker == owner
  }

  lemma {:induction false} PartHasFills(m: Match, owner: Address, n: nat)
    requires n <= |m.legs|
    ensures LegFills(m, owner, n) == [] <==> NoneMadeBy(m, owner, n)
  {
    hide NoneMadeBy, WordSpan;
    NoneMadeByStep(m, owner, n);
    if n > 0 {
      PartHasFills(m, owner, n - 1);
    }
  }

  ghost predicate NoneMadeBy(m: Match, owner: Address, n: nat)
    requires n <= |m.legs|
  {
    forall i :: 0 <= i < n ==> m.legs[i].order.maker != owner
  }

  lemma NoneMadeByStep(m: Match, owner: Address, n: nat)
    requires n <= |m.legs|
    ensures n == 0 ==> NoneMadeBy(m, owner, n)
    ensures n > 0 ==> (NoneMadeBy(m, owner, n) <==> NoneMadeBy(m, owner, n - 1) && m.legs[n - 1].order.maker != owner)
  {
    hide WordSpan;
  }

  lemma TakesPartHasFills(call: MatchOrdersCall, owner: Address, v: Venue, hash: MatchOrder -> Hash, built: Built)
    requires call.Aligned()
    ensures OwnerFills(MatchOf(call, v, hash), owner, built) != [] <==> TakesPart(call, owner)
  {
    hide WordSpan, LegFills, CheckedMulDiv;
    var m := MatchOf(call, v, hash);
    PartHasFills(m, owner, |m.legs|);
    assert forall i :: 0 <= i < |m.legs| ==> m.legs[i].order == call.makerOrders[i];
    if exists order :: order in call.makerOrders && order.maker == owner {
      var order :| order in call.makerOrders && order.maker == owner;
      var i :| 0 <= i < |call.makerOrders| && call.makerOrders[i] == order;
      assert m.legs[i].order.maker == owner;
    }
    if exists i :: 0 <= i < |m.legs| && m.legs[i].order.maker == owner {
      var i :| 0 <= i < |m.legs| && m.legs[i].order.maker == owner;
      assert call.makerOrders[i] in call.makerOrders;
    }
  }

  /** A call settles exactly when it is fair and what the Exchange and a participating owner receive
      and send, in all, are words; and then the taker gives and gets what the prices say. */
  lemma SettlesExactly(call: MatchOrdersCall, owner: Address, v: Venue, hash: MatchOrder -> Hash)
    requires call.Aligned() && ExchangeStandsAside(call, v)
    ensures var m, branch := MatchOf(call, v, hash), TheBranch(call);
      && (IsFair(call, v) ==>
            Accepts(m, branch)
            && Outcome(m, branch).making == Making(call) && Outcome(m, branch).taking == Taking(call))
      && (Settles(call, owner, v, hash) <==>
            IsFair(call, v) && FlowsFit(Outcome(m, branch).logs, v.exchange, v)
            && (TakesPart(call, owner) ==> FlowsFit(Outcome(m, branch).logs, owner, v)))
  {
    hide WordSpan, IsFair, CallUsable, Accepts, Outcome, CapsHold, FlowsFit, TakesPart, OwnerFills, Making, Taking;
    hide Complementary, RoundedDown, Net;
    var m, branch := MatchOf(call, v, hash), TheBranch(call);
    FairIsAccepted(call, v, hash);
    if IsFair(call, v) {
      UsableLegs(call, v, hash);
      assert MakesNoOrder(m, v.exchange) by { AsideMakesNone(call, v, hash); }
      ExchangeCheckNeverFails(m, branch);
      TakesPartHasFills(call, owner, v, hash, Outcome(m, branch));
    }
  }

  lemma AsideMakesNone(call: MatchOrdersCall, v: Venue, hash: MatchOrder -> Hash)
    requires call.Aligned() && ExchangeStandsAside(call, v)
    ensures MakesNoOrder(MatchOf(call, v, hash), v.exchange)
  {
    hide WordSpan, CheckedMulDiv;
  }

  // ----- amounts that leave room

  function AmountOf(log: Log): nat {
    match log
    case Moved(Cash(_, _, _, amount)) => amount
    case Moved(Single(_, _, _, _, _, amount)) => amount
    case _ => 0
  }

  /** All that a list of logs moves, whatever and whosever it is. */
  ghost function Volume(logs: seq<Log>): nat {
    if logs == [] then 0 else Volume(logs[..|logs| - 1]) + AmountOf(logs[|logs| - 1])
  }

  lemma {:induction false} VolumeConcat(a: seq<Log>, b: seq<Log>)
    ensures Volume(a + b) == Volume(a) + Volume(b)
  {
    hide AmountOf;
    if b == [] {
      assert a + b == a;
    } else {
      assert (a + b)[..|a + b| - 1] == a + b[..|b| - 1];
      VolumeConcat(a, b[..|b| - 1]);
    }
  }

  lemma VolumeLaws()
    ensures Volume([]) == 0
    ensures forall log {:trigger Volume([log])} :: Volume([log]) == AmountOf(log)
    ensures forall a: seq<Log>, b: seq<Log> {:trigger Volume(a + b)} :: Volume(a + b) == Volume(a) + Volume(b)
  {
    forall log
      ensures Volume([log]) == AmountOf(log)
    {
      assert [log][..0] == [];
    }
    forall a: seq<Log>, b: seq<Log> { VolumeConcat(a, b); }
  }

  lemma {:induction false} TotalWithinVolume(logs: seq<Log>, v: Venue, meter: Meter)
    requires AllExpected(v, logs) && !meter.FeesCharged?
    ensures Total(logs, meter) <= Volume(logs)
  {
    hide WordSpan;
    if logs != [] {
      var last := logs[|logs| - 1];
      assert last in logs && Expected(v, last);
      TotalWithinVolume(logs[..|logs| - 1], v, meter);
    }
  }

  lemma VolumeFitsAll(logs: seq<Log>, who: Address, v: Venue)
    requires AllExpected(v, logs) && Fits(Volume(logs))
    ensures FlowsFit(logs, who, v)
  {
    hide Total, Volume, AllExpected, WordSpan;
    TotalWithinVolume(logs, v, Inflow(who, PositionA(v)));
    TotalWithinVolume(logs, v, Outflow(who, PositionA(v)));
    TotalWithinVolume(logs, v, Inflow(who, PositionB(v)));
    TotalWithinVolume(logs, v, Outflow(who, PositionB(v)));
    TotalWithinVolume(logs, v, Inflow(who, PusdCash()));
    TotalWithinVolume(logs, v, Outflow(who, PusdCash()));
  }

  lemma WordAtMost(n: int)
    ensures n >= 0 ==> Word(n) <= n
    ensures n < 0 ==> Word(n) == 0
  {
    hide WordSpan;
  }

  lemma LegVolume(m: Match, phase: Phase, leg: Leg)
    ensures Volume(LegLogs(m, phase, leg)) <= leg.fill + leg.taking + leg.fee
  {
    hide WordSpan, Volume, AnyFees, Word;
    VolumeLaws();
    WordAtMost(leg.taking - leg.fee);
    WordAtMost(leg.fill + leg.fee);
  }

  ghost function LegsVolume(m: Match, n: nat): nat
    requires n <= |m.legs|
  {
    Fills(m.legs, n) + Takings(m.legs, n) + Fees(m.legs, n)
  }

  lemma {:induction false} PassVolume(m: Match, phase: Phase, n: nat)
    requires n <= |m.legs|
    ensures Volume(Pass(m, phase, n)) <= LegsVolume(m, n)
  {
    hide WordSpan, Volume, LegLogs;
    VolumeLaws();
    if n > 0 {
      PassVolume(m, phase, n - 1);
      LegVolume(m, phase, m.legs[n - 1]);
    }
  }

  /** All amounts of a match: what every order gives, asks for and pays. */
  ghost function MatchVolume(m: Match): nat { m.amounts.fill + m.amounts.fee + LegsVolume(m, |m.legs|) }

  lemma NormalClosingVolume(m: Match)
    ensures Volume(NormalClosing(m)) <= 2 * MatchVolume(m)
  {
    hide WordSpan, Volume, AnyFees, Word, Sum;
    VolumeLaws();
    WordAtMost(m.amounts.fee + AllFees(m));
    WordAtMost(AllFills(m) - m.amounts.fee);
  }

  lemma MintLogsVolume(m: Match)
    ensures Volume(MintLogs(m, All(m, BuyTaking))) <= 4 * All(m, BuyTaking)
    ensures Volume([MintDeposit(m)]) <= m.amounts.fill + m.amounts.fee
  {
    hide WordSpan, Volume, Word, All;
    VolumeLaws();
    WordAtMost(All(m, BuyTaking));
    WordAtMost(m.amounts.fill + m.amounts.fee);
  }

  lemma MintClosingVolume(m: Match)
    requires MintRefund(m) <= m.amounts.fill
    ensures Volume(MintClosing(m)) <= MatchVolume(m)
  {
    hide WordSpan, Volume, Word, Sum, MintRefund;
    VolumeLaws();
    WordAtMost(All(m, SellFill) + All(m, BuyTaking));
    WordAtMost(m.amounts.fee + AllFees(m));
    WordAtMost(MintRefund(m));
  }

  lemma MergeLogsVolume(m: Match)
    ensures Volume(MergeLogs(m)) <= 4 * All(m, SellFill)
  {
    hide WordSpan, Volume, Word, All;
    VolumeLaws();
    WordAtMost(All(m, SellFill));
  }

  lemma MergeClosingVolume(m: Match)
    ensures Volume(MergeClosing(m)) <= MatchVolume(m)
  {
    hide WordSpan, Volume, Word, Sum;
    VolumeLaws();
    WordAtMost(MergeTaking(m) - m.amounts.fee);
    WordAtMost(AllFees(m) + m.amounts.fee);
  }

  lemma ReceiptVolume(m: Match, making: nat, taking: nat)
    ensures Volume(Receipt(m, making, taking)) == 0
  {
    hide WordSpan, Volume, Word;
    VolumeLaws();
  }

  lemma NormalVolume(m: Match)
    requires Accepts(m, NormalMatch)
    ensures Volume(Outcome(m, NormalMatch).logs) <= 8 * MatchVolume(m)
  {
    hide WordSpan, Volume, Pass, NormalClosing, Receipt, IntakeOk, NormalLegOk, CheckedMulDiv, Sum;
    VolumeLaws();
    var built := Outcome(m, NormalMatch);
    ReceiptVolume(m, built.making, built.taking);
    PassVolume(m, NormalPass, |m.legs|);
    NormalClosingVolume(m);
  }

  lemma MintVolume(m: Match)
    requires Accepts(m, MintMatch)
    ensures Volume(Outcome(m, MintMatch).logs) <= 8 * MatchVolume(m)
  {
    hide WordSpan, Volume, Pass, MintClosing, MintLogs, MintDeposit, Receipt, IntakeOk, PayoutFits, CheckedMulDiv, Sum;
    VolumeLaws();
    var built := Outcome(m, MintMatch);
    ReceiptVolume(m, built.making, built.taking);
    PassVolume(m, MintIntake, |m.legs|);
    PassVolume(m, MintPayout, |m.legs|);
    MintLogsVolume(m);
    MintClosingVolume(m);
  }

  lemma MergeVolume(m: Match)
    requires Accepts(m, MergeMatch)
    ensures Volume(Outcome(m, MergeMatch).logs) <= 8 * MatchVolume(m)
  {
    hide WordSpan, Volume, Pass, MergeClosing, MergeLogs, Receipt, IntakeOk, PayoutFits, CheckedMulDiv, Sum;
    VolumeLaws();
    var built := Outcome(m, MergeMatch);
    ReceiptVolume(m, built.making, built.taking);
    PassVolume(m, MergeIntake, |m.legs|);
    PassVolume(m, MergePayout, |m.legs|);
    MergeLogsVolume(m);
    MergeClosingVolume(m);
  }

  lemma OutcomeVolume(m: Match, branch: Branch)
    requires Accepts(m, branch)
    ensures Volume(Outcome(m, branch).logs) <= 8 * MatchVolume(m)
  {
    hide Volume, Outcome, Accepts, WordSpan;
    match branch
    case NormalMatch => NormalVolume(m);
    case MintMatch => MintVolume(m);
    case MergeMatch => MergeVolume(m);
  }

  /** All amounts of a call leave room for the sums of its logs. */
  ghost predicate LeavesRoom(call: MatchOrdersCall)
    requires call.Aligned()
  {
    Fits(8 * (call.takerAmounts.fill + EveryFee(call) + Of(call, CashGiven) + Of(call, TokensGiven)
              + Of(call, CashAsked) + Of(call, TokensAsked)))
  }

  lemma RoomIsVolume(call: MatchOrdersCall, v: Venue, hash: MatchOrder -> Hash)
    requires call.Aligned() && EveryOrderStands(call, v) && TakingsFit(call) && LeavesRoom(call)
    ensures Fits(8 * MatchVolume(MatchOf(call, v, hash)))
  {
    hide WordSpan, Sum, Gathered, LegOf, EveryOrderStands, TakingsFit;
    SumsAreGathered(call, v, hash);
  }

  /** With that room a call settles, for any owner, exactly when it is fair. */
  lemma FairSettles(call: MatchOrdersCall, owner: Address, v: Venue, hash: MatchOrder -> Hash)
    requires call.Aligned() && ExchangeStandsAside(call, v) && LeavesRoom(call)
    ensures Settles(call, owner, v, hash) <==> IsFair(call, v)
    ensures IsFair(call, v) ==>
      var built := Outcome(MatchOf(call, v, hash), TheBranch(call));
      built.making == Making(call) && built.taking == Taking(call)
  {
    hide WordSpan, CallUsable, Accepts, Outcome, CapsHold, FlowsFit, TakesPart, OwnerFills, Making, Taking, Volume;
    hide EveryPriceAgrees, IsBalanced, EveryFeeIsSmall, EveryOrderStands, LeavesRoom, Settles, AllExpected, MatchVolume;
    var m, branch := MatchOf(call, v, hash), TheBranch(call);
    SettlesExactly(call, owner, v, hash);
    if IsFair(call, v) {
      assert CallUsable(call, v) by { FairIsAccepted(call, v, hash); }
      UsableMeansListed(call, v, hash);
      OutcomeExpected(m, branch);
      OutcomeVolume(m, branch);
      assert TakingsFit(call);
      RoomIsVolume(call, v, hash);
      assert m.venue == v;
      VolumeFitsAll(Outcome(m, branch).logs, v.exchange, v);
      VolumeFitsAll(Outcome(m, branch).logs, owner, v);
    }
  }

  // ----- one maker, any fill

  /** A call with one maker order and no fees. */
  function PairCall(taker: MatchOrder, maker: MatchOrder, takerFill: U256, makerFill: U256, receive: U256)
    : MatchOrdersCall
  {
    MatchOrdersCall(taker, [maker], [makerFill], [0], TakerAmounts(takerFill, receive, 0))
  }

  lemma OnePiece(call: MatchOrdersCall, what: What)
    requires call.Aligned() && |call.makerOrders| == 1
    ensures Of(call, what) == Piece(call, 0, what)
  {
    hide Piece;
    assert Gathered(call, 0, what) == 0;
  }

  lemma PairSums(call: MatchOrdersCall)
    requires call.Aligned() && |call.makerOrders| == 1 && call.makerFees == [0] && call.makerOrders[0].makerAmount > 0
    ensures var o, f := call.makerOrders[0], call.makerFills[0];
      && Of(call, CashGiven) == (if o.side == Buy then f else 0)
      && Of(call, TokensGiven) == (if o.side == Sell then f else 0)
      && Of(call, CashAsked) == (if o.side == Sell then Asked(o, f) else 0)
      && Of(call, TokensAsked) == (if o.side == Buy then Asked(o, f) else 0)
      && Of(call, BuyerFees) == 0 && Of(call, SellerFees) == 0
  {
    hide Of, Asked;
    OnePiece(call, CashGiven);
    OnePiece(call, TokensGiven);
    OnePiece(call, CashAsked);
    OnePiece(call, TokensAsked);
    OnePiece(call, BuyerFees);
    OnePiece(call, SellerFees);
  }

  /** Two orders that may be matched, with amounts that leave room. */
  ghost predicate PairIsSound(taker: MatchOrder, maker: MatchOrder, takerFill: U256, makerFill: U256, v: Venue) {
    && Stands(taker, takerFill, v) && Stands(maker, makerFill, v) && PricesAgree(taker, maker)
    && v.exchange != 0 && v.exchange != v.feeReceiver && taker.maker != v.exchange && maker.maker != v.exchange
    && ProductsFit(taker, maker) && FitsProduct(makerFill, maker.takerAmount)
    && FitsProduct(Asked(maker, makerFill), taker.takerAmount)
    && Fits(1_000 * (takerFill + makerFill + Asked(maker, makerFill)))
  }

  /** A buyer and a seller settle at any fill of the maker that asks no more than the taker's fill. */
  lemma StraightPairSettles(taker: MatchOrder, maker: MatchOrder, takerFill: U256, makerFill: U256, owner: Address,
                            v: Venue, hash: MatchOrder -> Hash)
    requires PairIsSound(taker, maker, takerFill, makerFill, v) && taker.side != maker.side
    requires Asked(maker, makerFill) <= takerFill
    ensures var call := PairCall(taker, maker, takerFill, makerFill, makerFill);
      && call.Aligned() && Settles(call, owner, v, hash) && TheBranch(call) == NormalMatch
      && Outcome(MatchOf(call, v, hash), NormalMatch).making == Asked(maker, makerFill)
      && Outcome(MatchOf(call, v, hash), NormalMatch).taking == makerFill
  {
    hide WordSpan, Settles, Asked, PricesAgree, ProductsFit, Of, Outcome, Accepts, MatchOf;
    var call := PairCall(taker, maker, takerFill, makerFill, makerFill);
    SameIds(taker, maker);
    PairSums(call);
    BranchIsStraight(call);
    assert IsStraight(call);
    StraightPairIsFair(taker, maker, takerFill, makerFill, v);
    hide IsFair, NothingOverflows, FitsProduct, FitsSum, FeeIsSmall;
    FairSettles(call, owner, v, hash);
    assert Accepts(MatchOf(call, v, hash), NormalMatch) by { FairIsAccepted(call, v, hash); }
  }

  /** Two buyers of the two positions settle by a mint at any fill of the maker that leaves the
      taker to pay no more than its fill. */
  lemma MintPairSettles(taker: MatchOrder, maker: MatchOrder, takerFill: U256, makerFill: U256, owner: Address,
                        v: Venue, hash: MatchOrder -> Hash)
    requires PairIsSound(taker, maker, takerFill, makerFill, v) && taker.side == maker.side == Buy
    requires makerFill <= Asked(maker, makerFill) <= makerFill + takerFill
    ensures var call := PairCall(taker, maker, takerFill, makerFill, Asked(maker, makerFill));
      && call.Aligned() && Settles(call, owner, v, hash) && TheBranch(call) == MintMatch
      && Outcome(MatchOf(call, v, hash), MintMatch).making == Asked(maker, makerFill) - makerFill
      && Outcome(MatchOf(call, v, hash), MintMatch).taking == Asked(maker, makerFill)
  {
    hide WordSpan, Settles, Asked, PricesAgree, ProductsFit, Of, Outcome, Accepts, MatchOf;
    var call := PairCall(taker, maker, takerFill, makerFill, Asked(maker, makerFill));
    DifferentIds(taker, maker);
    PairSums(call);
    BranchIsStraight(call);
    assert IsFair(call, v);
    FairSettles(call, owner, v, hash);
    assert Accepts(MatchOf(call, v, hash), MintMatch) by { FairIsAccepted(call, v, hash); }
  }

  /** Two sellers of the two positions settle by a merge at any common fill. */
  lemma MergePairSettles(taker: MatchOrder, maker: MatchOrder, fill: U256, owner: Address, v: Venue,
                         hash: MatchOrder -> Hash)
    requires PairIsSound(taker, maker, fill, fill, v) && taker.side == maker.side == Sell
    requires Asked(maker, fill) <= fill
    ensures var call := PairCall(taker, maker, fill, fill, fill - Asked(maker, fill));
      && call.Aligned() && Settles(call, owner, v, hash) && TheBranch(call) == MergeMatch
      && Outcome(MatchOf(call, v, hash), MergeMatch).making == fill
      && Outcome(MatchOf(call, v, hash), MergeMatch).taking == fill - Asked(maker, fill)
  {
    hide WordSpan, Settles, Asked, PricesAgree, ProductsFit, Of, Outcome, Accepts, MatchOf;
    var call := PairCall(taker, maker, fill, fill, fill - Asked(maker, fill));
    DifferentIds(taker, maker);
    PairSums(call);
    BranchIsStraight(call);
    assert IsFair(call, v);
    FairSettles(call, owner, v, hash);
    assert Accepts(MatchOf(call, v, hash), MergeMatch) by { FairIsAccepted(call, v, hash); }
  }

  lemma StraightPairIsFair(taker: MatchOrder, maker: MatchOrder, takerFill: U256, makerFill: U256, v: Venue)
    requires PairIsSound(taker, maker, takerFill, makerFill, v) && taker.side != maker.side
    requires Asked(maker, makerFill) <= takerFill
    ensures var call := PairCall(taker, maker, takerFill, makerFill, makerFill);
      call.Aligned() && IsFair(call, v) && LeavesRoom(call) && ExchangeStandsAside(call, v)
    ensures var call := PairCall(taker, maker, takerFill, makerFill, makerFill);
      Making(call) == Asked(maker, makerFill) && Taking(call) == makerFill
  {
    hide WordSpan, Asked, PricesAgree, ProductsFit, Of, Stands, FitsProduct;
    var call := PairCall(taker, maker, takerFill, makerFill, makerFill);
    StandsPositive(taker, takerFill, v);
    StandsPositive(maker, makerFill, v);
    SameIds(taker, maker);
    PairSums(call);
    assert IsStraight(call);
    assert Making(call) == Asked(maker, makerFill) && Taking(call) == makerFill && EveryFee(call) == 0;
    assert EveryOrderStands(call, v);
    assert IsBalanced(call);
    assert EveryFeeIsSmall(call, v);
  }

  lemma StandsPositive(o: MatchOrder, fill: nat, v: Venue)
    requires Stands(o, fill, v)
    ensures Positive(o)
  {
  }

  lemma SameIds(taker: MatchOrder, maker: MatchOrder)
    requires Positive(taker) && Positive(maker) && PricesAgree(taker, maker) && taker.side != maker.side
    ensures taker.tokenId == maker.tokenId
  {
  }

  lemma DifferentIds(taker: MatchOrder, maker: MatchOrder)
    requires Positive(taker) && Positive(maker) && PricesAgree(taker, maker) && taker.side == maker.side
    ensures taker.tokenId != maker.tokenId
  {
  }
}
