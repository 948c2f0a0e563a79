/** What every settlement that is built promises: the taker's limit price, and a ledger that
    balances for every account and every asset. */
module SettlementLaws {
  import opened Arithmetic
  import opened Words
  import opened Ledger
  import opened MatchCall
  import opened Settlement

  // ----- the limit price

  /** The taking of a leg is what the order asks for its fill, rounded down. */
  ghost predicate RoundedDown(leg: Leg) {
    leg.order.makerAmount > 0 && leg.taking == leg.fill * leg.order.takerAmount / leg.order.makerAmount
  }

  /** The taker is never given less than the order's price asks for what it gives. */
  ghost predicate HonoursLimit(taker: MatchOrder, making: int, taking: int) {
    taking * taker.makerAmount >= making * taker.takerAmount
  }

  /** The three price inequalities. The taker's order is TM for TT, the maker's m for t; the
      maker fills f and takes k. */
  lemma CrossingPrice(TM: int, TT: int, m: int, t: int, f: int, k: int)
    requires TM >= 0 && TT >= 0 && m > 0 && f >= 0
    requires TM * m >= TT * t && k * m <= f * t
    ensures f * TM >= k * TT
  {
    Scale(k * m, f * t, TT);
    Scale(TT * t, TM * m, f);
    assert (k * m) * TT == (k * TT) * m && (f * t) * TT == (TT * t) * f && (TM * m) * f == (f * TM) * m;
    CancelFactor(k * TT, f * TM, m);
  }

  lemma MintingPrice(TM: int, TT: int, m: int, t: int, f: int, k: int)
    requires TM >= 0 && TT >= 0 && t > 0 && k >= 0
    requires TT * m + t * TM >= TT * t && k * m <= f * t
    ensures k * TM >= (k - f) * TT
  {
    assert (k - f) * t == k * t - f * t && k * (t - m) == k * t - k * m;
    Scale((k - f) * t, k * (t - m), TT);
    assert TT * (t - m) == TT * t - TT * m;
    Scale(TT * (t - m), t * TM, k);
    assert ((k - f) * t) * TT == ((k - f) * TT) * t;
    assert (k * (t - m)) * TT == (TT * (t - m)) * k && (t * TM) * k == (k * TM) * t;
    CancelFactor((k - f) * TT, k * TM, t);
  }

  lemma MergingPrice(TM: int, TT: int, m: int, t: int, f: int, k: int)
    requires TM >= 0 && TT >= 0 && m > 0 && f >= 0
    requires TT * m + t * TM <= TM * m && k * m <= f * t
    ensures (f - k) * TM >= f * TT
  {
    Scale(TT * m, TM * m - t * TM, f);
    Scale(f * m - f * t, f * m - k * m, TM);
    assert (TM * m - t * TM) * f == (f * m - f * t) * TM;
    assert (TT * m) * f == (f * TT) * m && (f * m - k * m) * TM == ((f - k) * TM) * m;
    CancelFactor(f * TT, (f - k) * TM, m);
  }

  /** What a leg adds to the taker's making and taking, in each branch. */
  ghost function LegMaking(branch: Branch, leg: Leg): int {
    if branch.MintMatch? && leg.order.side == Buy then leg.taking - leg.fill
    else if branch.MergeMatch? && leg.order.side == Sell then leg.fill
    else leg.taking
  }

  ghost function LegTaking(branch: Branch, leg: Leg): int {
    if branch.MintMatch? && leg.order.side == Buy then leg.taking
    else if branch.MergeMatch? && leg.order.side == Sell then leg.fill - leg.taking
    else leg.fill
  }

  ghost predicate PairOk(m: Match, branch: Branch, leg: Leg) {
    match branch
    case NormalMatch => Crosses(m.taker, leg.order) == Some(true)
    case MintMatch => m.taker.side == Buy && ValidBatchPair(m.taker, leg.order, m.venue) == Some(true)
    case MergeMatch => m.taker.side == Sell && ValidBatchPair(m.taker, leg.order, m.venue) == Some(true)
  }

  /** What a crossing pair promises about the prices of its two orders. */
  ghost predicate PricesMeet(m: Match, branch: Branch, leg: Leg) {
    var TM: int, TT: int := m.taker.makerAmount, m.taker.takerAmount;
    var mm: int, t: int := leg.order.makerAmount, leg.order.takerAmount;
    if branch.NormalMatch? || leg.order.side != m.taker.side then TM * mm >= TT * t
    else if branch.MintMatch? then TT * mm + t * TM >= TT * t
    else TT * mm + t * TM <= TM * mm
  }

  lemma PairsMeet(m: Match, branch: Branch, leg: Leg)
    requires PairOk(m, branch, leg)
    ensures PricesMeet(m, branch, leg)
  {
    hide WordSpan;
  }

  ghost predicate TakesAtMost(leg: Leg) {
    leg.order.makerAmount > 0 && leg.taking * leg.order.makerAmount <= leg.fill * leg.order.takerAmount
  }

  lemma RoundedTakesAtMost(leg: Leg)
    requires RoundedDown(leg)
    ensures TakesAtMost(leg)
  {
    hide WordSpan;
    FloorBounds(leg.fill * leg.order.takerAmount, leg.order.makerAmount);
  }

  lemma MetPriceHonours(m: Match, branch: Branch, leg: Leg)
    requires TakesAtMost(leg) && PricesMeet(m, branch, leg) && leg.order.takerAmount > 0
    requires branch.MintMatch? ==> m.taker.side == Buy
    requires branch.MergeMatch? ==> m.taker.side == Sell
    ensures HonoursLimit(m.taker, LegMaking(branch, leg), LegTaking(branch, leg))
  {
    hide WordSpan;
    var f: int, k: int := leg.fill, leg.taking;
    var mm: int, t: int := leg.order.makerAmount, leg.order.takerAmount;
    if branch.NormalMatch? || leg.order.side != m.taker.side {
      CrossingPrice(m.taker.makerAmount, m.taker.takerAmount, mm, t, f, k);
    } else if branch.MintMatch? {
      MintingPrice(m.taker.makerAmount, m.taker.takerAmount, mm, t, f, k);
    } else {
      MergingPrice(m.taker.makerAmount, m.taker.takerAmount, mm, t, f, k);
    }
  }

  /** Every leg on its own honours the taker's price, because pairs cross and takings round down. */
  lemma LegPrice(m: Match, branch: Branch, leg: Leg)
    requires RoundedDown(leg) && PairOk(m, branch, leg) && leg.order.takerAmount > 0
    ensures HonoursLimit(m.taker, LegMaking(branch, leg), LegTaking(branch, leg))
  {
    hide RoundedDown, HonoursLimit, PricesMeet, TakesAtMost, Crosses, ValidBatchPair, WordSpan;
    PairsMeet(m, branch, leg);
    RoundedTakesAtMost(leg);
    MetPriceHonours(m, branch, leg);
  }

  ghost function MakingOf(m: Match, branch: Branch, n: nat): int
    requires n <= |m.legs|
  {
    if n == 0 then 0 else MakingOf(m, branch, n - 1) + LegMaking(branch, m.legs[n - 1])
  }

  ghost function TakingOf(m: Match, branch: Branch, n: nat): int
    requires n <= |m.legs|
  {
    if n == 0 then 0 else TakingOf(m, branch, n - 1) + LegTaking(branch, m.legs[n - 1])
  }

  ghost predicate LegsPriced(m: Match, branch: Branch) {
    forall i :: 0 <= i < |m.legs| ==>
      RoundedDown(m.legs[i]) && m.legs[i].order.takerAmount > 0 && PairOk(m, branch, m.legs[i])
  }

  lemma {:induction false} LegsPrice(m: Match, branch: Branch, n: nat)
    requires n <= |m.legs| && LegsPriced(m, branch)
    ensures HonoursLimit(m.taker, MakingOf(m, branch, n), TakingOf(m, branch, n))
  {
    hide RoundedDown, PairOk, LegMaking, LegTaking, HonoursLimit, WordSpan;
    if n > 0 {
      var leg := m.legs[n - 1];
      LegsPrice(m, branch, n - 1);
      LegPrice(m, branch, leg);
      HonoursAdds(m.taker, MakingOf(m, branch, n - 1), TakingOf(m, branch, n - 1), LegMaking(branch, leg),
                  LegTaking(branch, leg));
    } else {
      HonoursNothing(m.taker);
    }
  }

  lemma HonoursAdds(taker: MatchOrder, making: int, taking: int, more: int, moreTaking: int)
    requires HonoursLimit(taker, making, taking) && HonoursLimit(taker, more, moreTaking)
    ensures HonoursLimit(taker, making + more, taking + moreTaking)
  {
    hide WordSpan;
    Distribute(taking, moreTaking, taker.makerAmount);
    Distribute(making, more, taker.takerAmount);
  }

  lemma HonoursNothing(taker: MatchOrder)
    ensures HonoursLimit(taker, 0, 0)
  {
    hide WordSpan;
  }

  /** The taker's making and taking in a branch, in terms of the sums over all legs. */
  ghost predicate SumsAre(m: Match, branch: Branch, n: nat)
    requires n <= |m.legs|
  {
    var buyFill, buyTaking := Sum(m.legs, n, BuyFill), Sum(m.legs, n, BuyTaking);
    var sellFill, sellTaking := Sum(m.legs, n, SellFill), Sum(m.legs, n, SellTaking);
    var making, taking := MakingOf(m, branch, n), TakingOf(m, branch, n);
    match branch
    case NormalMatch => making == buyTaking + sellTaking && taking == buyFill + sellFill
    case MintMatch => making == buyTaking - buyFill + sellTaking && taking == sellFill + buyTaking
    case MergeMatch => making == buyTaking + sellFill && taking == buyFill + sellFill - sellTaking
  }

  lemma SumStep(legs: seq<Leg>, n: nat, part: Part)
    requires n <= |legs|
    ensures Sum(legs, n, part) == if n == 0 then 0 else Sum(legs, n - 1, part) + Share(legs[n - 1], part)
  {
  }

  lemma {:induction false} BranchSums(m: Match, branch: Branch, n: nat)
    requires n <= |m.legs|
    ensures SumsAre(m, branch, n)
  {
    hide LegMaking, LegTaking, Share, Sum;
    SumStep(m.legs, n, BuyFill);
    SumStep(m.legs, n, BuyTaking);
    SumStep(m.legs, n, SellFill);
    SumStep(m.legs, n, SellTaking);
    if n > 0 {
      BranchSums(m, branch, n - 1);
      LegShares(branch, m.legs[n - 1]);
    }
  }

  /** What a leg adds, in terms of its share in each sum. */
  lemma LegShares(branch: Branch, leg: Leg)
    ensures var buyFill, buyTaking := Share(leg, BuyFill), Share(leg, BuyTaking);
      var sellFill, sellTaking := Share(leg, SellFill), Share(leg, SellTaking);
      match branch
      case NormalMatch =>
        LegMaking(branch, leg) == buyTaking + sellTaking && LegTaking(branch, leg) == buyFill + sellFill
      case MintMatch =>
        LegMaking(branch, leg) == buyTaking - buyFill + sellTaking && LegTaking(branch, leg) == sellFill + buyTaking
      case MergeMatch =>
        LegMaking(branch, leg) == buyTaking + sellFill && LegTaking(branch, leg) == buyFill + sellFill - sellTaking
  {
  }

  ghost predicate Accepts(m: Match, branch: Branch) {
    match branch
    case NormalMatch => NormalAccepts(m)
    case MintMatch => m.taker.side == Buy && MintAccepts(m)
    case MergeMatch => m.taker.side == Sell && MergeAccepts(m)
  }

  ghost function Outcome(m: Match, branch: Branch): Built
    requires Accepts(m, branch)
  {
    match branch
    case NormalMatch => NormalOutcome(m)
    case MintMatch => MintOutcome(m)
    case MergeMatch => MergeOutcome(m)
  }

  /** Every match that is built honours the taker's limit price, although only the normal branch
      ever compares the totals with it. */
  lemma LimitPriceHonoured(m: Match, branch: Branch)
    requires Accepts(m, branch)
    requires forall i :: 0 <= i < |m.legs| ==> RoundedDown(m.legs[i]) && m.legs[i].order.takerAmount > 0
    ensures HonoursLimit(m.taker, Outcome(m, branch).making, Outcome(m, branch).taking)
  {
    AcceptedIsPriced(m, branch);
    LegsPrice(m, branch, |m.legs|);
    BranchSums(m, branch, |m.legs|);
    OutcomeSums(m, branch);
  }

  lemma AcceptedIsPriced(m: Match, branch: Branch)
    requires Accepts(m, branch)
    requires forall i :: 0 <= i < |m.legs| ==> RoundedDown(m.legs[i]) && m.legs[i].order.takerAmount > 0
    ensures LegsPriced(m, branch)
  {
    hide ValidBatchPair, Crosses, RoundedDown, CheckedMulDiv, Sum, WordSpan;
  }

  lemma OutcomeSums(m: Match, branch: Branch)
    requires Accepts(m, branch) && SumsAre(m, branch, |m.legs|)
    ensures Outcome(m, branch).making == MakingOf(m, branch, |m.legs|)
    ensures Outcome(m, branch).taking == TakingOf(m, branch, |m.legs|)
  {
    hide WordSpan, ValidBatchPair, Crosses, LegLogs, Pass, Receipt, MintClosing, MergeClosing, NormalClosing, Sum;
    hide MakingOf, TakingOf, MintLogs, MergeLogs, CheckedMulDiv;
  }

  /** The comparison that the normal branch makes can only reject by overflow: the crossing legs
      already give the taker at least the minimum. */
  lemma MinimumTakeIsRedundant(m: Match)
    requires LegsPriced(m, NormalMatch)
    requires CheckedMulDiv(Word(AllTakings(m)), m.taker.takerAmount, m.taker.makerAmount).Some?
    requires Fits(AllTakings(m))
    ensures AllFills(m) >= CheckedMulDiv(Word(AllTakings(m)), m.taker.takerAmount, m.taker.makerAmount).value
  {
    hide PairOk, RoundedDown, HonoursLimit, CheckedMulDiv, Sum, WordSpan;
    LegsPrice(m, NormalMatch, |m.legs|);
    BranchSums(m, NormalMatch, |m.legs|);
    HonouredIsMinimum(m.taker, AllTakings(m), AllFills(m));
  }

  /** A total that honours the price is at least the minimum take that the program computes. */
  lemma HonouredIsMinimum(taker: MatchOrder, making: nat, taking: int)
    requires HonoursLimit(taker, making, taking) && Fits(making)
    requires CheckedMulDiv(Word(making), taker.takerAmount, taker.makerAmount).Some?
    ensures taking >= CheckedMulDiv(Word(making), taker.takerAmount, taker.makerAmount).value
  {
    hide WordSpan;
    FloorBounds(making * taker.takerAmount, taker.makerAmount);
    CancelFactor(making * taker.takerAmount / taker.makerAmount, taking, taker.makerAmount);
  }

  // ----- the ledger

  ghost function AmountIf(condition: bool, amount: int): int { if condition then amount else 0 }

  /** What one fill is worth to an account: a buyer pays making and fee and is given taking; a
      seller gives making and is paid taking less the fee. */
  ghost function FillNet(order: MatchOrder, making: int, taking: int, fee: int, who: Address, asset: Asset): int {
    if order.maker != who then 0
    else if asset == Fungible(Pusd) then (if order.side == Buy then -making - fee else taking - fee)
    else if asset == Position(PositionManager, order.tokenId) then (if order.side == Buy then taking else -making)
    else 0
  }

  ghost function LegsNet(m: Match, n: nat, who: Address, asset: Asset): int
    requires n <= |m.legs|
  {
    if n == 0 then
      0
    else
      var leg := m.legs[n - 1];
      LegsNet(m, n - 1, who, asset) + FillNet(leg.order, leg.fill, leg.taking, leg.fee, who, asset)
  }

  /** What a mint or merge takes from, or returns to, the zero address. */
  ghost function SupplyNet(m: Match, branch: Branch, who: Address, asset: Asset): int {
    MintedNet(m.venue, match branch
      case NormalMatch => 0
      case MintMatch => All(m, BuyTaking)
      case MergeMatch => 0 - All(m, SellFill), who, asset)
  }

  ghost function MintedNet(v: Venue, minted: int, who: Address, asset: Asset): int {
    if who != ZERO_ADDRESS then
      0
    else if asset == Fungible(Pusd) then
      minted
    else
      AmountIf(asset == Position(PositionManager, v.idA), -minted)
      + AmountIf(asset == Position(PositionManager, v.idB), -minted)
  }

  /** The whole of what a settled match moves for an account: its own fills, the fees if it
      is the fee receiver, the supply if it is the zero address, and nothing else. */
  ghost function Entitlement(m: Match, branch: Branch, who: Address, asset: Asset): int
    requires Accepts(m, branch)
  {
    var built := Outcome(m, branch);
    FillNet(m.taker, built.making, built.taking, m.amounts.fee, who, asset)
    + LegsNet(m, |m.legs|, who, asset)
    + AmountIf(who == m.venue.feeReceiver && asset == Fungible(Pusd), built.fees)
    + SupplyNet(m, branch, who, asset)
  }

  /** The normal branch settles makers of the other side and the same position only. */
  ghost predicate Complementary(m: Match) {
    forall i :: 0 <= i < |m.legs| ==>
      m.legs[i].order.side != m.taker.side && m.legs[i].order.tokenId == m.taker.tokenId
  }

  /** The other side of a leg of a normal match: the taker, or the Exchange in between when fees
      are charged to a selling taker. */
  ghost function Counterpart(m: Match, fill: int, taking: int, fee: int, who: Address, asset: Asset): int {
    var token := asset == Position(PositionManager, m.taker.tokenId);
    var cash := asset == Fungible(Pusd);
    if m.taker.side == Buy then
      AmountIf(who == m.taker.maker && token, fill) - AmountIf(who == m.taker.maker && cash, taking - fee)
    else
      AmountIf(cash && who == (if AnyFees(m) then m.venue.exchange else m.taker.maker), fill + fee)
      - AmountIf(who == m.taker.maker && token, taking)
  }

  lemma NetFour(a: Log, b: Log, c: Log, d: seq<Log>, who: Address, asset: Asset)
    ensures Net([a] + [b] + [c] + d, who, asset)
      == Step(a, who, asset) + Step(b, who, asset) + Step(c, who, asset) + Net(d, who, asset)
  {
    hide Net, Step;
    NetLaws(who, asset);
  }

  lemma NetWhen(condition: bool, log: Log, who: Address, asset: Asset)
    ensures Net(When(condition, log), who, asset) == AmountIf(condition, Step(log, who, asset))
  {
    hide Net, Step;
    NetLaws(who, asset);
  }

  lemma NetWhenFee(condition: bool, v: Venue, amount: U256, who: Address, asset: Asset)
    ensures Net(When(condition, FeeLog(v, amount)), who, asset) == 0
  {
    hide Net;
    NetWhen(condition, FeeLog(v, amount), who, asset);
  }

  lemma BoughtLegLedger(m: Match, leg: Leg, who: Address, asset: Asset)
    requires m.taker.side == Buy && leg.order.side == Sell && leg.order.tokenId == m.taker.tokenId
    requires leg.fee <= leg.taking
    ensures Net(LegLogs(m, NormalPass, leg), who, asset)
      == FillNet(leg.order, leg.fill, leg.taking, leg.fee, who, asset)
         + Counterpart(m, leg.fill, leg.taking, leg.fee, who, asset)
  {
    hide WordSpan, Net;
    var v, taker, maker := m.venue, m.taker.maker, leg.order.maker;
    NetWhenFee(leg.fee > 0, v, leg.fee, who, asset);
    NetFour(Gives(v.exchange, maker, taker, leg.order.tokenId, leg.fill),
      Pays(taker, maker, leg.taking - leg.fee), LegFillLog(m, leg), When(leg.fee > 0, FeeLog(v, leg.fee)),
      who, asset);
  }

  lemma SoldLegLedger(m: Match, leg: Leg, who: Address, asset: Asset)
    requires m.taker.side == Sell && leg.order.side == Buy && leg.order.tokenId == m.taker.tokenId
    requires AnyFees(m) && Fits(leg.fill + leg.fee)
    ensures Net(LegLogs(m, NormalPass, leg), who, asset)
      == FillNet(leg.order, leg.fill, leg.taking, leg.fee, who, asset)
         + Counterpart(m, leg.fill, leg.taking, leg.fee, who, asset)
  {
    hide WordSpan, Net, AnyFees;
    var v, taker, maker := m.venue, m.taker.maker, leg.order.maker;
    NetWhenFee(leg.fee > 0, v, leg.fee, who, asset);
    NetFour(LegFillLog(m, leg), Pays(maker, v.exchange, leg.fill + leg.fee),
      Gives(v.exchange, taker, maker, m.taker.tokenId, leg.taking), When(leg.fee > 0, FeeLog(v, leg.fee)),
      who, asset);
  }

  lemma SwappedLegLedger(m: Match, leg: Leg, who: Address, asset: Asset)
    requires m.taker.side == Sell && leg.order.side == Buy && leg.order.tokenId == m.taker.tokenId
    requires !AnyFees(m) && leg.fee == 0
    ensures Net(LegLogs(m, NormalPass, leg), who, asset)
      == FillNet(leg.order, leg.fill, leg.taking, leg.fee, who, asset)
         + Counterpart(m, leg.fill, leg.taking, leg.fee, who, asset)
  {
    hide WordSpan, Net, AnyFees;
    var v, taker, maker := m.venue, m.taker.maker, leg.order.maker;
    var logs := LegLogs(m, NormalPass, leg);
    NetLaws(who, asset);
    assert logs + [] == logs;
    NetFour(Gives(v.exchange, taker, maker, m.taker.tokenId, leg.taking), Pays(maker, taker, leg.fill),
      FillLog(leg.hash, leg.order, taker, leg.fill, leg.taking, 0), [], who, asset);
  }

  lemma CounterpartAdds(m: Match, fills: int, takings: int, fees: int, leg: Leg, who: Address, asset: Asset)
    ensures Counterpart(m, fills + leg.fill, takings + leg.taking, fees + leg.fee, who, asset)
      == Counterpart(m, fills, takings, fees, who, asset) + Counterpart(m, leg.fill, leg.taking, leg.fee, who, asset)
  {
    hide AnyFees, WordSpan;
  }

  lemma NoCounterpart(m: Match, who: Address, asset: Asset)
    ensures Counterpart(m, 0, 0, 0, who, asset) == 0
  {
    hide AnyFees, WordSpan;
  }

  lemma {:induction false} NormalPassLedger(m: Match, n: nat, who: Address, asset: Asset)
    requires n <= |m.legs| && Complementary(m)
    requires forall i :: 0 <= i < |m.legs| ==> NormalAmountsOk(m, m.legs[i])
    ensures Net(Pass(m, NormalPass, n), who, asset)
      == LegsNet(m, n, who, asset)
         + Counterpart(m, Fills(m.legs, n), Takings(m.legs, n), Fees(m.legs, n), who, asset)
  {
    hide LegLogs, Net, FillNet, WordSpan, AnyFees, Pass, Sum, Counterpart;
    PassStep(m, NormalPass, n, who, asset);
    SumStep(m.legs, n, BuyFill);
    SumStep(m.legs, n, BuyTaking);
    SumStep(m.legs, n, BuyFee);
    SumStep(m.legs, n, SellFill);
    SumStep(m.legs, n, SellTaking);
    SumStep(m.legs, n, SellFee);
    if n > 0 {
      var leg := m.legs[n - 1];
      NormalPassLedger(m, n - 1, who, asset);
      if m.taker.side == Buy {
        BoughtLegLedger(m, leg, who, asset);
      } else if AnyFees(m) {
        SoldLegLedger(m, leg, who, asset);
      } else {
        assert leg.fee == 0 by { NoFees(m, leg); }
        SwappedLegLedger(m, leg, who, asset);
      }
      CounterpartAdds(m, Fills(m.legs, n - 1), Takings(m.legs, n - 1), Fees(m.legs, n - 1), leg, who, asset);
    } else {
      NoCounterpart(m, who, asset);
    }
  }

  lemma NoFees(m: Match, leg: Leg)
    requires !AnyFees(m) && leg in m.legs
    ensures leg.fee == 0
  {
  }

  lemma PassStep(m: Match, phase: Phase, n: nat, who: Address, asset: Asset)
    requires n <= |m.legs|
    ensures n == 0 ==> Net(Pass(m, phase, n), who, asset) == 0
    ensures n > 0 ==>
      Net(Pass(m, phase, n), who, asset)
      == Net(Pass(m, phase, n - 1), who, asset) + Net(LegLogs(m, phase, m.legs[n - 1]), who, asset)
  {
    hide Net, LegLogs;
    NetLaws(who, asset);
  }

  /** A payment, as one term of a net. */
  ghost function Paid(from: Address, to: Address, amount: int, who: Address, asset: Asset): int {
    AmountIf(asset == Fungible(Pusd) && who == to, amount) - AmountIf(asset == Fungible(Pusd) && who == from, amount)
  }

  ghost function Given(from: Address, to: Address, id: U256, amount: int, who: Address, asset: Asset): int {
    AmountIf(asset == Position(PositionManager, id) && who == to, amount)
    - AmountIf(asset == Position(PositionManager, id) && who == from, amount)
  }

  lemma PaysNet(condition: bool, from: Address, to: Address, amount: U256, who: Address, asset: Asset)
    requires condition || amount == 0
    ensures Net(When(condition, Pays(from, to, amount)), who, asset) == Paid(from, to, amount, who, asset)
  {
    hide Net, WordSpan;
    NetWhen(condition, Pays(from, to, amount), who, asset);
  }

  lemma OnePaysNet(from: Address, to: Address, amount: U256, who: Address, asset: Asset)
    ensures Net([Pays(from, to, amount)], who, asset) == Paid(from, to, amount, who, asset)
  {
    hide Net, WordSpan;
    NetLaws(who, asset);
  }

  lemma OneGivesNet(operator: Address, from: Address, to: Address, id: U256, amount: U256, who: Address, asset: Asset)
    ensures Net([Gives(operator, from, to, id, amount)], who, asset) == Given(from, to, id, amount, who, asset)
  {
    hide Net, WordSpan;
    NetLaws(who, asset);
  }

  lemma OneEventNet(event: Event, who: Address, asset: Asset)
    ensures Net([Noted(event)], who, asset) == 0
  {
    hide Net, WordSpan;
    NetLaws(who, asset);
  }

  lemma ReceiptNet(m: Match, making: nat, taking: nat, who: Address, asset: Asset)
    ensures Net(Receipt(m, making, taking), who, asset) == 0
  {
    hide Net, WordSpan, Word;
    OneEventNet(FillLog(m.takerHash, m.taker, m.venue.exchange, Word(making), Word(taking), m.amounts.fee).event,
                who, asset);
    OneEventNet(MatchedLog(m.takerHash, m.taker, Word(making), Word(taking)).event, who, asset);
    NetLaws(who, asset);
  }

  lemma NormalClosingNet(m: Match, who: Address, asset: Asset)
    requires Fits(m.amounts.fee + AllFees(m)) && Fits(AllFills(m))
    requires m.taker.side == Sell && AnyFees(m) ==> m.amounts.fee <= AllFills(m)
    ensures Net(NormalClosing(m), who, asset)
      == var v, taker, fees := m.venue, m.taker.maker, m.amounts.fee + AllFees(m);
         if m.taker.side == Buy then Paid(taker, v.feeReceiver, fees, who, asset)
         else if AnyFees(m) then
           Paid(v.exchange, taker, AllFills(m) - m.amounts.fee, who, asset)
           + Paid(v.exchange, v.feeReceiver, fees, who, asset)
         else 0
  {
    hide Net, WordSpan, AnyFees, Paid, When, Fees, Fills;
    NetLaws(who, asset);
    var v, taker, fees := m.venue, m.taker.maker, m.amounts.fee + AllFees(m);
    NetWhenFee(m.amounts.fee > 0, v, m.amounts.fee, who, asset);
    if m.taker.side == Buy {
      PaysNet(fees > 0, taker, v.feeReceiver, Word(fees), who, asset);
    } else if AnyFees(m) {
      OnePaysNet(v.exchange, taker, Word(AllFills(m) - m.amounts.fee), who, asset);
      PaysNet(fees > 0, v.exchange, v.feeReceiver, Word(fees), who, asset);
    }
  }

  /** What the passes and the closing of a normal match leave to the taker and the fee receiver. */
  lemma NormalSums(m: Match, fills: int, takings: int, fees: int, who: Address, asset: Asset)
    requires m.taker.side == Sell && !AnyFees(m) ==> fees == 0 && m.amounts.fee == 0
    ensures var v, taker, total := m.venue, m.taker.maker, m.amounts.fee + fees;
      Counterpart(m, fills, takings, fees, who, asset)
      + (if m.taker.side == Buy then Paid(taker, v.feeReceiver, total, who, asset)
         else if AnyFees(m) then
           Paid(v.exchange, taker, fills - m.amounts.fee, who, asset)
           + Paid(v.exchange, v.feeReceiver, total, who, asset)
         else 0)
      == FillNet(m.taker, takings, fills, m.amounts.fee, who, asset)
         + AmountIf(who == v.feeReceiver && asset == Fungible(Pusd), total) + MintedNet(v, 0, who, asset)
  {
    hide AnyFees, WordSpan;
  }

  lemma NormalLedger(m: Match, who: Address, asset: Asset)
    requires Accepts(m, NormalMatch) && Complementary(m)
    ensures Net(NormalOutcome(m).logs, who, asset) == Entitlement(m, NormalMatch, who, asset)
  {
    hide Net, WordSpan, LegLogs, Crosses, CheckedMulDiv, NormalClosing, Receipt, Pass, LegsNet;
    hide Counterpart, Paid, FillNet, MintedNet, AmountIf, AnyFees, Sum, Complementary, NormalAmountsOk;
    NormalPassLedger(m, |m.legs|, who, asset);
    NormalClosingNet(m, who, asset);
    ReceiptNet(m, AllTakings(m), AllFills(m), who, asset);
    NetLaws(who, asset);
    if !AnyFees(m) {
      NoFeesInAll(m, |m.legs|);
      NoTakerFees(m);
    }
    NormalSums(m, AllFills(m), AllTakings(m), AllFees(m), who, asset);
  }

  lemma NoTakerFees(m: Match)
    requires !AnyFees(m)
    ensures m.amounts.fee == 0
  {
  }

  lemma {:induction false} NoFeesInAll(m: Match, n: nat)
    requires n <= |m.legs| && !AnyFees(m)
    ensures Fees(m.legs, n) == 0
  {
    if n > 0 {
      NoFeesInAll(m, n - 1);
      NoFees(m, m.legs[n - 1]);
    }
  }

  // ----- the ledger of a mint

  /** In a valid batch pair the two sides decide which position the maker's order is for. */
  lemma PairToken(taker: MatchOrder, maker: MatchOrder, v: Venue)
    requires ValidBatchPair(taker, maker, v) == Some(true)
    ensures v.Lists(taker.tokenId) && v.Lists(maker.tokenId)
    ensures maker.tokenId == if maker.side == taker.side then v.Other(taker.tokenId) else taker.tokenId
  {
    hide WordSpan, CheckedMul, CheckedAdd, Crosses;
  }

  /** What the Exchange holds for others between the two passes of a mint, given the sums of
      one leg or of many. */
  ghost function MintCustody(m: Match, buyCash: int, buyTaking: int, sellFill: int, sellCash: int,
                             who: Address, asset: Asset): int {
    AmountIf(who == m.venue.exchange && asset == Fungible(Pusd), buyCash - sellCash)
    + AmountIf(who == m.venue.exchange && asset == Position(PositionManager, m.taker.tokenId), sellFill)
    - AmountIf(who == m.venue.exchange && asset == Position(PositionManager, m.venue.Other(m.taker.tokenId)), buyTaking)
  }

  ghost function LegNet(leg: Leg, who: Address, asset: Asset): int {
    FillNet(leg.order, leg.fill, leg.taking, leg.fee, who, asset)
  }

  ghost function MintHeld(m: Match, n: nat, who: Address, asset: Asset): int
    requires n <= |m.legs|
  {
    MintCustody(m, Sum(m.legs, n, BuyFill) + Sum(m.legs, n, BuyFee), Sum(m.legs, n, BuyTaking),
      Sum(m.legs, n, SellFill), Sum(m.legs, n, SellTaking) - Sum(m.legs, n, SellFee), who, asset)
  }

  lemma MintBuyLegLedger(m: Match, leg: Leg, who: Address, asset: Asset)
    requires leg.order.side == Buy && leg.order.tokenId == m.venue.Other(m.taker.tokenId) && Fits(leg.fill + leg.fee)
    ensures Net(LegLogs(m, MintIntake, leg), who, asset) + Net(LegLogs(m, MintPayout, leg), who, asset)
      == LegNet(leg, who, asset) + MintCustody(m, leg.fill + leg.fee, leg.taking, 0, 0, who, asset)
  {
    hide Net, WordSpan;
    var v, maker := m.venue, leg.order.maker;
    NetLaws(who, asset);
    OnePaysNet(maker, v.exchange, leg.fill + leg.fee, who, asset);
    OneEventNet(LegFillLog(m, leg).event, who, asset);
    OneGivesNet(v.exchange, v.exchange, maker, v.Other(m.taker.tokenId), leg.taking, who, asset);
    NetWhenFee(leg.fee > 0, v, leg.fee, who, asset);
    hide When;
  }

  lemma MintSellLegLedger(m: Match, leg: Leg, who: Address, asset: Asset)
    requires leg.order.side == Sell && leg.order.tokenId == m.taker.tokenId && leg.fee <= leg.taking
    ensures Net(LegLogs(m, MintIntake, leg), who, asset) + Net(LegLogs(m, MintPayout, leg), who, asset)
      == LegNet(leg, who, asset) + MintCustody(m, 0, 0, leg.fill, leg.taking - leg.fee, who, asset)
  {
    hide Net, WordSpan;
    var v, maker := m.venue, leg.order.maker;
    NetLaws(who, asset);
    OneGivesNet(v.exchange, maker, v.exchange, leg.order.tokenId, leg.fill, who, asset);
    OneEventNet(LegFillLog(m, leg).event, who, asset);
    OnePaysNet(v.exchange, maker, leg.taking - leg.fee, who, asset);
    NetWhenFee(leg.fee > 0, v, leg.fee, who, asset);
    hide When;
  }

  ghost predicate BatchLegsOk(m: Match) {
    && (forall i :: 0 <= i < |m.legs| ==> IntakeOk(m, m.legs[i]))
    && SellersCoverFees(m.legs)
  }

  lemma MintHeldAtStart(m: Match, who: Address, asset: Asset)
    ensures MintHeld(m, 0, who, asset) == 0
  {
  }

  lemma MintCustodyAdds(m: Match, n: nat, who: Address, asset: Asset)
    requires 0 < n <= |m.legs|
    ensures var leg := m.legs[n - 1];
      MintHeld(m, n, who, asset) == MintHeld(m, n - 1, who, asset)
        + if leg.order.side == Buy then MintCustody(m, leg.fill + leg.fee, leg.taking, 0, 0, who, asset)
          else MintCustody(m, 0, 0, leg.fill, leg.taking - leg.fee, who, asset)
  {
    hide WordSpan;
  }

  lemma {:induction false} MintPassesLedger(m: Match, n: nat, who: Address, asset: Asset)
    requires n <= |m.legs| && BatchLegsOk(m) && m.taker.side == Buy
    ensures Net(Pass(m, MintIntake, n), who, asset) + Net(Pass(m, MintPayout, n), who, asset)
      == LegsNet(m, n, who, asset) + MintHeld(m, n, who, asset)
  {
    hide MintHeld, MintCustody, LegLogs, FillNet, WordSpan, ValidBatchPair, Net, Pass;
    PassStep(m, MintIntake, n, who, asset);
    PassStep(m, MintPayout, n, who, asset);
    if n > 0 {
      var leg := m.legs[n - 1];
      MintPassesLedger(m, n - 1, who, asset);
      PairToken(m.taker, leg.order, m.venue);
      if leg.order.side == Buy {
        MintBuyLegLedger(m, leg, who, asset);
      } else {
        MintSellLegLedger(m, leg, who, asset);
      }
      MintCustodyAdds(m, n, who, asset);
    } else {
      MintHeldAtStart(m, who, asset);
    }
  }

  lemma MintLogsNet(m: Match, amount: nat, who: Address, asset: Asset)
    requires Fits(amount)
    ensures Net(MintLogs(m, amount), who, asset)
      == var v := m.venue;
         Paid(v.exchange, v.module_, amount, who, asset)
         + Given(ZERO_ADDRESS, v.exchange, v.idA, amount, who, asset)
         + Given(ZERO_ADDRESS, v.exchange, v.idB, amount, who, asset)
         + Paid(v.module_, ZERO_ADDRESS, amount, who, asset)
  {
    var v := m.venue;
    hide Net, WordSpan;
    if amount > 0 {
      hide Paid, Given;
      NetLaws(who, asset);
      OnePaysNet(v.exchange, v.module_, amount, who, asset);
      OneGivesNet(v.module_, ZERO_ADDRESS, v.exchange, v.idA, amount, who, asset);
      OneGivesNet(v.module_, ZERO_ADDRESS, v.exchange, v.idB, amount, who, asset);
      OnePaysNet(v.module_, ZERO_ADDRESS, amount, who, asset);
      OneEventNet(PositionsSplit(v.module_, v.exchange, v.idA, v.exchange, v.exchange, amount), who, asset);
    } else {
      NetLaws(who, asset);
    }
  }

  lemma MintClosingNet(m: Match, who: Address, asset: Asset)
    requires Fits(m.amounts.fee + AllFees(m)) && Fits(All(m, SellFill) + All(m, BuyTaking)) && Fits(MintRefund(m))
    ensures Net(MintClosing(m), who, asset)
      == var v, taker := m.venue, m.taker.maker;
         Given(v.exchange, taker, m.taker.tokenId, All(m, SellFill) + All(m, BuyTaking), who, asset)
         + Paid(v.exchange, v.feeReceiver, m.amounts.fee + AllFees(m), who, asset)
         + Paid(v.exchange, taker, MintRefund(m), who, asset)
  {
    hide Net, WordSpan, Paid, Given, When, Fees, Sum, MintRefund;
    var v, taker, fees := m.venue, m.taker.maker, m.amounts.fee + AllFees(m);
    NetLaws(who, asset);
    OneGivesNet(v.exchange, v.exchange, taker, m.taker.tokenId, Word(All(m, SellFill) + All(m, BuyTaking)), who, asset);
    PaysNet(fees > 0, v.exchange, v.feeReceiver, Word(fees), who, asset);
    PaysNet(MintRefund(m) > 0, v.exchange, taker, Word(MintRefund(m)), who, asset);
    NetWhenFee(m.amounts.fee > 0, v, m.amounts.fee, who, asset);
  }

  lemma MintLogsSplit(m: Match, who: Address, asset: Asset)
    requires Accepts(m, MintMatch)
    ensures Net(MintOutcome(m).logs, who, asset)
      == Paid(m.taker.maker, m.venue.exchange, m.amounts.fill + m.amounts.fee, who, asset)
         + Net(Pass(m, MintIntake, |m.legs|), who, asset) + Net(MintLogs(m, All(m, BuyTaking)), who, asset)
         + Net(Pass(m, MintPayout, |m.legs|), who, asset) + Net(MintClosing(m), who, asset)
  {
    hide Net, WordSpan, Paid, MintClosing, Receipt, Pass, MintLogs, Sum, MintRefund, IntakeOk;
    NetLaws(who, asset);
    OnePaysNet(m.taker.maker, m.venue.exchange, Word(m.amounts.fill + m.amounts.fee), who, asset);
    ReceiptNet(m, MintOutcome(m).making, MintOutcome(m).taking, who, asset);
  }

  /** What a mint gathers and gives out again is the taker's fill, the fees and the supply. */
  lemma MintSums(m: Match, buyFill: int, buyFee: int, buyTaking: int, sellFill: int, sellTaking: int, sellFee: int,
                 who: Address, asset: Asset)
    requires m.taker.side == Buy && m.venue.Lists(m.taker.tokenId)
    ensures var v, taker, fees := m.venue, m.taker.maker, m.amounts.fee + buyFee + sellFee;
      var refund := m.amounts.fill + buyFill - buyTaking - sellTaking;
      Paid(taker, v.exchange, m.amounts.fill + m.amounts.fee, who, asset)
      + MintCustody(m, buyFill + buyFee, buyTaking, sellFill, sellTaking - sellFee, who, asset)
      + (Paid(v.exchange, v.module_, buyTaking, who, asset)
         + Given(ZERO_ADDRESS, v.exchange, v.idA, buyTaking, who, asset)
         + Given(ZERO_ADDRESS, v.exchange, v.idB, buyTaking, who, asset)
         + Paid(v.module_, ZERO_ADDRESS, buyTaking, who, asset))
      + (Given(v.exchange, taker, m.taker.tokenId, sellFill + buyTaking, who, asset)
         + Paid(v.exchange, v.feeReceiver, fees, who, asset) + Paid(v.exchange, taker, refund, who, asset))
      == FillNet(m.taker, m.amounts.fill - refund, sellFill + buyTaking, m.amounts.fee, who, asset)
         + AmountIf(who == v.feeReceiver && asset == Fungible(Pusd), fees) + MintedNet(v, buyTaking, who, asset)
  {
    hide WordSpan;
  }

  lemma MintLedger(m: Match, who: Address, asset: Asset)
    requires Accepts(m, MintMatch)
    ensures Net(MintOutcome(m).logs, who, asset) == Entitlement(m, MintMatch, who, asset)
  {
    hide Net, WordSpan, LegLogs, IntakeOk, MintClosing, MintLogs, Receipt, Pass, LegsNet, Sum;
    hide Paid, Given, MintCustody, FillNet, MintedNet, AmountIf;
    MintLogsSplit(m, who, asset);
    MintPassesLedger(m, |m.legs|, who, asset);
    MintLogsNet(m, All(m, BuyTaking), who, asset);
    MintClosingNet(m, who, asset);
    MintSums(m, All(m, BuyFill), All(m, BuyFee), All(m, BuyTaking), All(m, SellFill), All(m, SellTaking),
             All(m, SellFee), who, asset);
  }

  // ----- the ledger of a merge

  /** What the Exchange, the module and the taker hold for others between the two passes. */
  ghost function MergeCustody(m: Match, buyCash: int, buyTaking: int, sellFill: int, sellCash: int,
                              who: Address, asset: Asset): int {
    AmountIf(who == m.venue.exchange && asset == Fungible(Pusd), buyCash - sellCash)
    + AmountIf(who == m.venue.module_ && asset == Position(PositionManager, m.venue.Other(m.taker.tokenId)), sellFill)
    - AmountIf(who == m.taker.maker && asset == Position(PositionManager, m.taker.tokenId), buyTaking)
  }

  ghost function MergeHeld(m: Match, n: nat, who: Address, asset: Asset): int
    requires n <= |m.legs|
  {
    MergeCustody(m, Sum(m.legs, n, BuyFill) + Sum(m.legs, n, BuyFee), Sum(m.legs, n, BuyTaking),
      Sum(m.legs, n, SellFill), Sum(m.legs, n, SellTaking) - Sum(m.legs, n, SellFee), who, asset)
  }

  lemma MergeBuyLegLedger(m: Match, leg: Leg, who: Address, asset: Asset)
    requires leg.order.side == Buy && leg.order.tokenId == m.taker.tokenId && Fits(leg.fill + leg.fee)
    ensures Net(LegLogs(m, MergeIntake, leg), who, asset) + Net(LegLogs(m, MergePayout, leg), who, asset)
      == LegNet(leg, who, asset) + MergeCustody(m, leg.fill + leg.fee, leg.taking, 0, 0, who, asset)
  {
    hide Net, WordSpan;
    var v, maker := m.venue, leg.order.maker;
    NetLaws(who, asset);
    OnePaysNet(maker, v.exchange, leg.fill + leg.fee, who, asset);
    OneEventNet(LegFillLog(m, leg).event, who, asset);
    OneGivesNet(v.exchange, m.taker.maker, maker, m.taker.tokenId, leg.taking, who, asset);
    NetWhenFee(leg.fee > 0, v, leg.fee, who, asset);
    hide When;
  }

  lemma MergeSellLegLedger(m: Match, leg: Leg, who: Address, asset: Asset)
    requires leg.order.side == Sell && leg.order.tokenId == m.venue.Other(m.taker.tokenId) && leg.fee <= leg.taking
    ensures Net(LegLogs(m, MergeIntake, leg), who, asset) + Net(LegLogs(m, MergePayout, leg), who, asset)
      == LegNet(leg, who, asset) + MergeCustody(m, 0, 0, leg.fill, leg.taking - leg.fee, who, asset)
  {
    hide Net, WordSpan;
    var v, maker := m.venue, leg.order.maker;
    NetLaws(who, asset);
    OneGivesNet(v.exchange, maker, v.module_, leg.order.tokenId, leg.fill, who, asset);
    OneEventNet(LegFillLog(m, leg).event, who, asset);
    OnePaysNet(v.exchange, maker, leg.taking - leg.fee, who, asset);
    NetWhenFee(leg.fee > 0, v, leg.fee, who, asset);
    hide When;
  }

  lemma MergeHeldAtStart(m: Match, who: Address, asset: Asset)
    ensures MergeHeld(m, 0, who, asset) == 0
  {
  }

  lemma MergeCustodyAdds(m: Match, n: nat, who: Address, asset: Asset)
    requires 0 < n <= |m.legs|
    ensures var leg := m.legs[n - 1];
      MergeHeld(m, n, who, asset) == MergeHeld(m, n - 1, who, asset)
        + if leg.order.side == Buy then MergeCustody(m, leg.fill + leg.fee, leg.taking, 0, 0, who, asset)
          else MergeCustody(m, 0, 0, leg.fill, leg.taking - leg.fee, who, asset)
  {
    hide WordSpan;
  }

  lemma {:induction false} MergePassesLedger(m: Match, n: nat, who: Address, asset: Asset)
    requires n <= |m.legs| && BatchLegsOk(m) && m.taker.side == Sell
    ensures Net(Pass(m, MergeIntake, n), who, asset) + Net(Pass(m, MergePayout, n), who, asset)
      == LegsNet(m, n, who, asset) + MergeHeld(m, n, who, asset)
  {
    hide MergeHeld, MergeCustody, LegLogs, FillNet, WordSpan, ValidBatchPair, Net, Pass;
    PassStep(m, MergeIntake, n, who, asset);
    PassStep(m, MergePayout, n, who, asset);
    if n > 0 {
      var leg := m.legs[n - 1];
      MergePassesLedger(m, n - 1, who, asset);
      PairToken(m.taker, leg.order, m.venue);
      if leg.order.side == Buy {
        MergeBuyLegLedger(m, leg, who, asset);
      } else {
        MergeSellLegLedger(m, leg, who, asset);
      }
      MergeCustodyAdds(m, n, who, asset);
    } else {
      MergeHeldAtStart(m, who, asset);
    }
  }

  lemma MergeLogsNet(m: Match, who: Address, asset: Asset)
    requires Fits(All(m, SellFill))
    ensures Net(MergeLogs(m), who, asset)
      == var v, a := m.venue, All(m, SellFill);
         Given(m.taker.maker, v.module_, m.taker.tokenId, a, who, asset)
         + Paid(ZERO_ADDRESS, v.exchange, a, who, asset)
         + Given(v.module_, ZERO_ADDRESS, v.idA, a, who, asset)
         + Given(v.module_, ZERO_ADDRESS, v.idB, a, who, asset)
  {
    hide Net, WordSpan, Paid, Given, Sum;
    var v, a := m.venue, Word(All(m, SellFill));
    NetLaws(who, asset);
    OneGivesNet(v.exchange, m.taker.maker, v.module_, m.taker.tokenId, a, who, asset);
    OnePaysNet(ZERO_ADDRESS, v.exchange, a, who, asset);
    OneGivesNet(v.module_, v.module_, ZERO_ADDRESS, v.idA, a, who, asset);
    OneGivesNet(v.module_, v.module_, ZERO_ADDRESS, v.idB, a, who, asset);
    OneEventNet(PositionsMerged(v.module_, v.exchange, v.idA, v.exchange, a), who, asset);
  }

  lemma MergeClosingNet(m: Match, who: Address, asset: Asset)
    requires Fits(AllFees(m) + m.amounts.fee) && Fits(MergeTaking(m)) && m.amounts.fee <= MergeTaking(m)
    ensures Net(MergeClosing(m), who, asset)
      == Paid(m.venue.exchange, m.taker.maker, MergeTaking(m) - m.amounts.fee, who, asset)
         + Paid(m.venue.exchange, m.venue.feeReceiver, AllFees(m) + m.amounts.fee, who, asset)
  {
    hide Net, WordSpan, Paid, When, Fees, MergeTaking;
    var v, fees := m.venue, AllFees(m) + m.amounts.fee;
    NetLaws(who, asset);
    OnePaysNet(v.exchange, m.taker.maker, Word(MergeTaking(m) - m.amounts.fee), who, asset);
    PaysNet(fees > 0, v.exchange, v.feeReceiver, Word(fees), who, asset);
    NetWhenFee(m.amounts.fee > 0, v, m.amounts.fee, who, asset);
  }

  lemma MergeLogsSplit(m: Match, who: Address, asset: Asset)
    requires Accepts(m, MergeMatch)
    ensures Net(MergeOutcome(m).logs, who, asset)
      == Net(Pass(m, MergeIntake, |m.legs|), who, asset) + Net(MergeLogs(m), who, asset)
         + Net(Pass(m, MergePayout, |m.legs|), who, asset) + Net(MergeClosing(m), who, asset)
  {
    hide Net, WordSpan, MergeClosing, Receipt, Pass, MergeLogs, Sum, MergeTaking, IntakeOk;
    NetLaws(who, asset);
    ReceiptNet(m, MergeOutcome(m).making, MergeOutcome(m).taking, who, asset);
  }

  /** What a merge gathers and gives out again is the taker's fill, the fees and the supply. */
  lemma MergeSums(m: Match, buyFill: int, buyFee: int, buyTaking: int, sellFill: int, sellTaking: int, sellFee: int,
                  who: Address, asset: Asset)
    requires m.taker.side == Sell && m.venue.Lists(m.taker.tokenId) && buyTaking + sellFill == m.amounts.fill
    ensures var v, taker, fees := m.venue, m.taker.maker, buyFee + sellFee + m.amounts.fee;
      var taking := buyFill + sellFill - sellTaking;
      MergeCustody(m, buyFill + buyFee, buyTaking, sellFill, sellTaking - sellFee, who, asset)
      + (Given(taker, v.module_, m.taker.tokenId, sellFill, who, asset)
         + Paid(ZERO_ADDRESS, v.exchange, sellFill, who, asset)
         + Given(v.module_, ZERO_ADDRESS, v.idA, sellFill, who, asset)
         + Given(v.module_, ZERO_ADDRESS, v.idB, sellFill, who, asset))
      + (Paid(v.exchange, taker, taking - m.amounts.fee, who, asset)
         + Paid(v.exchange, v.feeReceiver, fees, who, asset))
      == FillNet(m.taker, m.amounts.fill, taking, m.amounts.fee, who, asset)
         + AmountIf(who == v.feeReceiver && asset == Fungible(Pusd), fees) + MintedNet(v, 0 - sellFill, who, asset)
  {
    hide WordSpan;
  }

  lemma MergeLedger(m: Match, who: Address, asset: Asset)
    requires Accepts(m, MergeMatch)
    ensures Net(MergeOutcome(m).logs, who, asset) == Entitlement(m, MergeMatch, who, asset)
  {
    hide Net, WordSpan, LegLogs, IntakeOk, MergeClosing, MergeLogs, Receipt, Pass, LegsNet, Sum;
    hide Paid, Given, MergeCustody, FillNet, MintedNet, AmountIf;
    MergeLogsSplit(m, who, asset);
    MergePassesLedger(m, |m.legs|, who, asset);
    MergeLogsNet(m, who, asset);
    MergeClosingNet(m, who, asset);
    MergeSums(m, All(m, BuyFill), All(m, BuyFee), All(m, BuyTaking), All(m, SellFill), All(m, SellTaking),
              All(m, SellFee), who, asset);
  }

  /** The ledger of a settled match: whoever looks, and at whatever asset, the receipt moves
      exactly the account's fills, the fees and the supply. It needs no account to differ from
      another. */
  lemma MatchBalances(m: Match, branch: Branch, who: Address, asset: Asset)
    requires Accepts(m, branch)
    requires branch.NormalMatch? ==> Complementary(m)
    ensures Net(Outcome(m, branch).logs, who, asset) == Entitlement(m, branch, who, asset)
  {
    match branch
    case NormalMatch => NormalLedger(m, who, asset);
    case MintMatch => MintLedger(m, who, asset);
    case MergeMatch => MergeLedger(m, who, asset);
  }
}
