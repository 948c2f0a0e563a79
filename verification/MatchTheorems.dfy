/** The promises of a settled matchOrders call, for every call, every owner and every maker list. */
module MatchTheorems {
  import opened Words
  import opened Ledger
  import opened MatchCall
  import opened Settlement
  import opened SettlementLaws
  import opened CallSettlement

  // ----- fees

  lemma LegFees(m: Match, phase: Phase, leg: Leg)
    requires phase == NormalPass && !AnyFees(m) ==> leg.fee == 0
    ensures Total(LegLogs(m, phase, leg), FeesCharged)
      == if phase == MintIntake || phase == MergeIntake then 0 else leg.fee
  {
    hide WordSpan, Total, AnyFees, Word;
    MeterLaws(FeesCharged);
  }

  lemma {:induction false} PassFees(m: Match, phase: Phase, n: nat)
    requires n <= |m.legs|
    ensures Total(Pass(m, phase, n), FeesCharged)
      == if phase == MintIntake || phase == MergeIntake then 0 else Fees(m.legs, n)
  {
    hide WordSpan, Total, AnyFees, LegLogs;
    MeterLaws(FeesCharged);
    if n > 0 {
      PassFees(m, phase, n - 1);
      if !AnyFees(m) { NoFees(m, m.legs[n - 1]); }
      LegFees(m, phase, m.legs[n - 1]);
    }
  }

  lemma NormalClosingFees(m: Match)
    ensures Total(NormalClosing(m), FeesCharged) == (if m.taker.side == Buy || AnyFees(m) then m.amounts.fee else 0)
  {
    hide WordSpan, Total, AnyFees, Word, AllFees, AllFills;
    MeterLaws(FeesCharged);
  }

  lemma MintClosingFees(m: Match, amount: nat)
    ensures Total(MintClosing(m), FeesCharged) == m.amounts.fee && Total(MintLogs(m, amount), FeesCharged) == 0
  {
    hide WordSpan, Total, Word, MintRefund, AllFees, All;
    MeterLaws(FeesCharged);
  }

  lemma MergeClosingFees(m: Match)
    ensures Total(MergeClosing(m), FeesCharged) == m.amounts.fee && Total(MergeLogs(m), FeesCharged) == 0
  {
    hide WordSpan, Total, Word, MergeTaking, AllFees, All;
    MeterLaws(FeesCharged);
  }

  lemma ReceiptFees(m: Match, making: nat, taking: nat)
    ensures Total(Receipt(m, making, taking), FeesCharged) == 0
    ensures Total([MintDeposit(m)], FeesCharged) == 0
  {
    hide WordSpan, Total, Word;
    MeterLaws(FeesCharged);
  }

  /** The Fee events of a match add up to the fees that it reports. */
  lemma FeeEventsAreFees(m: Match, branch: Branch)
    requires Accepts(m, branch)
    ensures Total(Outcome(m, branch).logs, FeesCharged) == m.amounts.fee + AllFees(m)
  {
    hide WordSpan, Total, Pass, LegLogs, NormalClosing, MintClosing, MergeClosing, MintLogs, MergeLogs, Receipt;
    hide NormalLegOk, IntakeOk, AnyFees, CheckedMulDiv, SellersCoverFees;
    MeterLaws(FeesCharged);
    var n, built := |m.legs|, Outcome(m, branch);
    PassFees(m, NormalPass, n);
    PassFees(m, MintIntake, n);
    PassFees(m, MintPayout, n);
    PassFees(m, MergeIntake, n);
    PassFees(m, MergePayout, n);
    NormalClosingFees(m);
    MintClosingFees(m, All(m, BuyTaking));
    MergeClosingFees(m);
    ReceiptFees(m, built.making, built.taking);
    if !AnyFees(m) {
      NoFeesInAll(m, n);
      NoTakerFees(m);
    }
  }

  /** The cash that fees are charged on: what buyers give and what sellers take. */
  ghost function CashBases(m: Match, n: nat): nat
    requires n <= |m.legs|
  {
    if n == 0 then 0
    else CashBases(m, n - 1) + CashBasis(m.legs[n - 1].order, m.legs[n - 1].fill, m.legs[n - 1].taking)
  }

  lemma {:induction false} LegFeesCapped(m: Match, n: nat)
    requires n <= |m.legs| && forall i :: 0 <= i < |m.legs| ==> LegCapped(m.legs[i])
    ensures 10 * Fees(m.legs, n) <= CashBases(m, n)
  {
    hide WordSpan, FeeWithinCap;
    if n > 0 {
      var leg := m.legs[n - 1];
      LegFeesCapped(m, n - 1);
      CapCoversFee(leg.fee, CashBasis(leg.order, leg.fill, leg.taking));
    }
  }

  // ----- fills

  ghost function FillsNet(fills: seq<Fill>, owner: Address, asset: Asset): int {
    if fills == [] then 0
    else
      var f := fills[|fills| - 1];
      FillsNet(fills[..|fills| - 1], owner, asset) + FillNet(f.order, f.making, f.taking, f.fee, owner, asset)
  }

  lemma FillsNetAppend(fills: seq<Fill>, own: seq<Fill>, owner: Address, asset: Asset)
    requires |own| <= 1
    ensures FillsNet(fills + own, owner, asset) == FillsNet(fills, owner, asset)
      + if own == [] then 0 else FillNet(own[0].order, own[0].making, own[0].taking, own[0].fee, owner, asset)
  {
    if own == [] {
      assert fills + own == fills;
    } else {
      assert (fills + own)[..|fills|] == fills;
    }
  }

  lemma {:induction false} OwnerFillsNet(m: Match, owner: Address, first: seq<Fill>, n: nat, asset: Asset)
    requires n <= |m.legs|
    ensures FillsNet(first + LegFills(m, owner, n), owner, asset)
      == FillsNet(first, owner, asset) + LegsNet(m, n, owner, asset)
  {
    hide WordSpan, FillsNet;
    if n == 0 {
      assert first + [] == first;
    } else {
      var own := OwnFill(m.legs[n - 1], owner);
      OwnerFillsNet(m, owner, first, n - 1, asset);
      FillsNetAppend(first + LegFills(m, owner, n - 1), own, owner, asset);
      assert first + LegFills(m, owner, n) == first + LegFills(m, owner, n - 1) + own;
    }
  }

  lemma AllFillsNet(m: Match, owner: Address, built: Built, asset: Asset)
    requires Fits(built.making) && Fits(built.taking)
    ensures FillsNet(OwnerFills(m, owner, built), owner, asset)
      == FillNet(m.taker, built.making, built.taking, m.amounts.fee, owner, asset) + LegsNet(m, |m.legs|, owner, asset)
  {
    hide WordSpan, LegsNet, LegFills;
    var first := TakerFills(m, owner, built.making, built.taking);
    OwnerFillsNet(m, owner, first, |m.legs|, asset);
    FillsNetAppend([], first, owner, asset);
    assert [] + first == first;
  }

  // ----- the theorems

  ghost function TheBranch(call: MatchOrdersCall): Branch { BranchFor(call.takerOrder, call.makerOrders) }

  /** A usable call gives legs whose takings are rounded down and, in the normal branch, makers
      of the other side only. */
  lemma UsableLegs(call: MatchOrdersCall, v: Venue, hash: MatchOrder -> Hash)
    requires call.Aligned() && CallUsable(call, v)
    ensures var m := MatchOf(call, v, hash);
      && (forall i :: 0 <= i < |m.legs| ==> RoundedDown(m.legs[i]) && m.legs[i].order.takerAmount > 0
                                            && m.legs[i].order.maker != ZERO_ADDRESS)
      && (TheBranch(call).NormalMatch? ==> Complementary(m))
  {
    hide WordSpan;
    var m := MatchOf(call, v, hash);
    forall i | 0 <= i < |m.legs|
      ensures RoundedDown(m.legs[i]) && m.legs[i].order.takerAmount > 0 && m.legs[i].order.maker != ZERO_ADDRESS
      ensures TheBranch(call).NormalMatch? ==>
        m.legs[i].order.side != m.taker.side && m.legs[i].order.tokenId == m.taker.tokenId
    {
      assert MakerUsable(call, v, i) && call.makerOrders[i] in call.makerOrders;
    }
  }

  /** The limit price is honoured by every settlement that is built, in all three branches. */
  lemma SettlementHonoursLimit(call: MatchOrdersCall, owner: Address, v: Venue, hash: MatchOrder -> Hash)
    requires call.Aligned() && Settles(call, owner, v, hash)
    ensures var built := Outcome(MatchOf(call, v, hash), TheBranch(call));
      HonoursLimit(call.takerOrder, built.making, built.taking)
  {
    hide Accepts, Outcome, CallUsable, RoundedDown, ExchangeClears, CapsHold;
    UsableLegs(call, v, hash);
    LimitPriceHonoured(MatchOf(call, v, hash), TheBranch(call));
  }

  ghost function FlowNet(f: Flows, v: Venue, asset: Asset): int {
    if asset == PositionA(v) then f.inA - f.outA
    else if asset == PositionB(v) then f.inB - f.outB
    else if asset == PusdCash() then f.cashIn - f.cashOut
    else 0
  }

  lemma FlowsAreNet(f: Flows, logs: seq<Log>, who: Address, v: Venue, asset: Asset)
    requires FlowsAre(f, logs, who, v) && v.idA != v.idB && asset in {PositionA(v), PositionB(v), PusdCash()}
    ensures FlowNet(f, v, asset) == Net(logs, who, asset)
  {
    hide WordSpan, Total;
  }

  /** No order of the match is made by this account. */
  ghost predicate MakesNoOrder(m: Match, who: Address) {
    m.taker.maker != who && forall i :: 0 <= i < |m.legs| ==> m.legs[i].order.maker != who
  }

  lemma {:induction false} NoOrderNoFills(m: Match, n: nat, who: Address)
    requires n <= |m.legs| && MakesNoOrder(m, who)
    ensures LegFills(m, who, n) == []
  {
    if n > 0 {
      NoOrderNoFills(m, n - 1, who);
    }
  }

  /** A usable call has no order of the zero address, so the zero address never participates. */
  lemma ZeroMakesNoOrder(call: MatchOrdersCall, v: Venue, hash: MatchOrder -> Hash, built: Built)
    requires call.Aligned() && CallUsable(call, v)
    ensures var m := MatchOf(call, v, hash);
      MakesNoOrder(m, ZERO_ADDRESS) && OwnerFills(m, ZERO_ADDRESS, built) == []
  {
    hide WordSpan, RoundedDown;
    UsableLegs(call, v, hash);
    NoOrderNoFills(MatchOf(call, v, hash), |call.makerOrders|, ZERO_ADDRESS);
  }

  /** The owner's flows are the owner's fills, even for an owner that is the taker and several
      makers at once, and the owner fee is the sum of the fill fees. */
  lemma OwnerFlowsAreFills(call: MatchOrdersCall, owner: Address, v: Venue, hash: MatchOrder -> Hash,
                           s: SettledMatch, asset: Asset)
    requires call.Aligned() && Settles(call, owner, v, hash) && v.idA != v.idB
    requires Describes(s, MatchOf(call, v, hash), owner, Outcome(MatchOf(call, v, hash), TheBranch(call)))
    requires s.participates && owner != v.feeReceiver
    requires asset in {PositionA(v), PositionB(v), PusdCash()}
    ensures FlowNet(s.flows, v, asset) == Net(s.logs, owner, asset) == FillsNet(s.fills, owner, asset)
    ensures s.ownerFee == FillFees(s.fills)
  {
    var m, branch := MatchOf(call, v, hash), TheBranch(call);
    hide Accepts, Outcome, CallUsable, ExchangeClears, CapsHold, FillNet, LegsNet, FillsNet, OwnerFills, Total;
    hide RoundedDown, FlowsAre, FlowNet, WordSpan;
    FlowsAreNet(s.flows, s.logs, owner, v, asset);
    ZeroMakesNoOrder(call, v, hash, Outcome(m, branch));
    UsableLegs(call, v, hash);
    OutcomeFits(m, branch);
    MatchBalances(m, branch, owner, asset);
    AllFillsNet(m, owner, Outcome(m, branch), asset);
  }

  lemma {:induction false} NoOrderNoFill(m: Match, n: nat, who: Address, asset: Asset)
    requires n <= |m.legs| && MakesNoOrder(m, who)
    ensures LegsNet(m, n, who, asset) == 0
  {
    if n > 0 {
      NoOrderNoFill(m, n - 1, who, asset);
    }
  }

  /** The Exchange, the module, or any other account that makes no order and is not the fee
      receiver or the zero address nets to zero in every asset. */
  lemma BystandersNetToZero(m: Match, branch: Branch, who: Address, asset: Asset)
    requires Accepts(m, branch) && (branch.NormalMatch? ==> Complementary(m))
    requires MakesNoOrder(m, who) && who != m.venue.feeReceiver && who != ZERO_ADDRESS
    ensures Net(Outcome(m, branch).logs, who, asset) == 0
  {
    hide Accepts, Outcome, LegsNet;
    MatchBalances(m, branch, who, asset);
    NoOrderNoFill(m, |m.legs|, who, asset);
  }

  /** So the Exchange check never answers no: it can only be missing, by overflow. */
  lemma ExchangeCheckNeverFails(m: Match, branch: Branch)
    requires Accepts(m, branch) && (branch.NormalMatch? ==> Complementary(m))
    requires MakesNoOrder(m, m.venue.exchange)
    requires m.venue.exchange != m.venue.feeReceiver && m.venue.exchange != ZERO_ADDRESS
    ensures ExchangeClears(m, Outcome(m, branch)) <==> FlowsFit(Outcome(m, branch).logs, m.venue.exchange, m.venue)
  {
    hide Accepts, Outcome, Net, FlowsFit;
    BystandersNetToZero(m, branch, m.venue.exchange, PositionA(m.venue));
    BystandersNetToZero(m, branch, m.venue.exchange, PositionB(m.venue));
    BystandersNetToZero(m, branch, m.venue.exchange, PusdCash());
  }

  /** Positions and pUSD are minted and burned one against the other. */
  lemma SupplyIsBacked(m: Match, branch: Branch)
    requires Accepts(m, branch) && (branch.NormalMatch? ==> Complementary(m))
    requires MakesNoOrder(m, ZERO_ADDRESS) && m.venue.feeReceiver != ZERO_ADDRESS && m.venue.idA != m.venue.idB
    ensures var logs := Outcome(m, branch).logs;
      && Net(logs, ZERO_ADDRESS, PositionA(m.venue)) == Net(logs, ZERO_ADDRESS, PositionB(m.venue))
      && Net(logs, ZERO_ADDRESS, PositionA(m.venue)) == -Net(logs, ZERO_ADDRESS, PusdCash())
  {
    hide Accepts, Outcome, LegsNet, Net;
    MatchBalances(m, branch, ZERO_ADDRESS, PositionA(m.venue));
    MatchBalances(m, branch, ZERO_ADDRESS, PositionB(m.venue));
    MatchBalances(m, branch, ZERO_ADDRESS, PusdCash());
    NoOrderNoFill(m, |m.legs|, ZERO_ADDRESS, PositionA(m.venue));
    NoOrderNoFill(m, |m.legs|, ZERO_ADDRESS, PositionB(m.venue));
    NoOrderNoFill(m, |m.legs|, ZERO_ADDRESS, PusdCash());
  }

  /** The fee receiver is paid exactly what the Fee events say, and that is at most a tenth of
      the cash that the orders exchange. */
  lemma FeesArePaidAndCapped(m: Match, branch: Branch)
    requires Accepts(m, branch) && (branch.NormalMatch? ==> Complementary(m))
    requires CapsHold(m, Outcome(m, branch))
    requires MakesNoOrder(m, m.venue.feeReceiver) && m.venue.feeReceiver != ZERO_ADDRESS
    ensures var built := Outcome(m, branch);
      && Net(built.logs, m.venue.feeReceiver, PusdCash()) == Total(built.logs, FeesCharged)
      && 10 * Total(built.logs, FeesCharged)
         <= CashBasis(m.taker, Word(built.making), Word(built.taking)) + CashBases(m, |m.legs|)
  {
    hide Accepts, Outcome, LegsNet, Net, Total, FeeWithinCap, WordSpan, Word;
    var built := Outcome(m, branch);
    MatchBalances(m, branch, m.venue.feeReceiver, PusdCash());
    NoOrderNoFill(m, |m.legs|, m.venue.feeReceiver, PusdCash());
    FeeEventsAreFees(m, branch);
    OutcomeFits(m, branch);
    LegFeesCapped(m, |m.legs|);
    CapCoversFee(m.amounts.fee, CashBasis(m.taker, Word(built.making), Word(built.taking)));
  }

  // ----- the same of every call that settles

  /** The conditions of the theorems above, from the settlement of a call. */
  lemma SettledMeansAccepted(call: MatchOrdersCall, owner: Address, v: Venue, hash: MatchOrder -> Hash)
    requires call.Aligned() && Settles(call, owner, v, hash)
    ensures var m, branch := MatchOf(call, v, hash), TheBranch(call);
      && Accepts(m, branch) && (branch.NormalMatch? ==> Complementary(m)) && CapsHold(m, Outcome(m, branch))
      && MakesNoOrder(m, ZERO_ADDRESS) && m.venue == v && m.taker == call.takerOrder
  {
    hide Accepts, Outcome, CallUsable, ExchangeClears, CapsHold, OwnerFills, RoundedDown, WordSpan;
    UsableLegs(call, v, hash);
    ZeroMakesNoOrder(call, v, hash, Outcome(MatchOf(call, v, hash), TheBranch(call)));
  }

  /** Every settled call: the two positions and pUSD are minted and burned one against the other,
      the fee receiver gets exactly the Fee events and at most a tenth of the cash exchanged, and
      whoever makes no order is left as before. */
  lemma SettlementIsBalanced(call: MatchOrdersCall, owner: Address, v: Venue, hash: MatchOrder -> Hash)
    requires call.Aligned() && Settles(call, owner, v, hash)
    requires v.feeReceiver != ZERO_ADDRESS && v.idA != v.idB
    ensures var m := MatchOf(call, v, hash);
      var built := Outcome(m, TheBranch(call));
      && Net(built.logs, ZERO_ADDRESS, PositionA(v)) == Net(built.logs, ZERO_ADDRESS, PositionB(v))
      && Net(built.logs, ZERO_ADDRESS, PositionA(v)) == -Net(built.logs, ZERO_ADDRESS, PusdCash())
      && (MakesNoOrder(m, v.feeReceiver) ==>
            Net(built.logs, v.feeReceiver, PusdCash()) == Total(built.logs, FeesCharged)
            && 10 * Total(built.logs, FeesCharged)
               <= CashBasis(m.taker, Word(built.making), Word(built.taking)) + CashBases(m, |m.legs|))
      && forall who, asset :: MakesNoOrder(m, who) && who != v.feeReceiver && who != ZERO_ADDRESS ==>
           Net(built.logs, who, asset) == 0
  {
    hide Settles, Accepts, Outcome, MatchOf, TheBranch, CapsHold, MakesNoOrder, Complementary, Net, Total, WordSpan;
    SettledMeansAccepted(call, owner, v, hash);
    var m, branch := MatchOf(call, v, hash), TheBranch(call);
    SupplyIsBacked(m, branch);
    if MakesNoOrder(m, v.feeReceiver) { FeesArePaidAndCapped(m, branch); }
    forall who, asset | MakesNoOrder(m, who) && who != v.feeReceiver && who != ZERO_ADDRESS
      ensures Net(Outcome(m, branch).logs, who, asset) == 0
    {
      BystandersNetToZero(m, branch, who, asset);
    }
  }
}
