/** Small matches that are accepted: the conditions of every branch can be met. */
module MatchWitness {
  import opened Words
  import opened Ledger
  import opened MatchCall
  import opened Settlement
  import opened SettlementLaws
  import opened CallSettlement
  import opened MatchTheorems

  /** The Exchange is account 1 and the fee receiver account 2; the module is left open. */
  predicate Plain(v: Venue) { v == Venue(1, 2, v.module_, 101, 102) }

  function OrderOf(maker: Address, side: TradeSide, id: U256, makerAmount: U256, takerAmount: U256): MatchOrder {
    MatchOrder(0, maker, maker, id, makerAmount, takerAmount, side, PolyProxy, 0, 0, 0, [])
  }

  /** Ten units of cash against twenty positions, one maker, no fee. */
  function CallOf(side: TradeSide, makerSide: TradeSide, makerId: U256): MatchOrdersCall {
    var cash, tokens := 10, 20;
    var taker := if side == Buy then OrderOf(4, Buy, 101, cash, tokens) else OrderOf(4, Sell, 101, tokens, cash);
    var maker := if makerSide == Buy then OrderOf(5, Buy, makerId, cash, tokens)
                 else OrderOf(5, Sell, makerId, tokens, cash);
    MatchOrdersCall(taker, [maker], [maker.makerAmount], [0],
                    TakerAmounts(taker.makerAmount, taker.takerAmount, 0))
  }

  function NoHash(order: MatchOrder): Hash { 0 }

  lemma OneLeg(call: MatchOrdersCall, v: Venue)
    requires call.Aligned() && |call.makerOrders| == 1
    ensures var m := MatchOf(call, v, NoHash);
      |m.legs| == 1 && m.legs[0] == LegOf(call, NoHash, 0) && m.taker == call.takerOrder && m.venue == v
      && forall part :: Sum(m.legs, 1, part) == Share(m.legs[0], part)
  {
    hide WordSpan, LegOf, Share;
    var m := MatchOf(call, v, NoHash);
    forall part
      ensures Sum(m.legs, 1, part) == Share(m.legs[0], part)
    {
      assert Sum(m.legs, 0, part) == 0;
    }
  }

  /** A buyer meets a seller of the same position. */
  lemma NormalIsMet(v: Venue)
    requires Plain(v)
    ensures var call := CallOf(Buy, Sell, 101);
      call.Aligned() && CallUsable(call, v) && Accepts(MatchOf(call, v, NoHash), NormalMatch)
      && Complementary(MatchOf(call, v, NoHash))
  {
    hide WordSpan;
    OneLeg(CallOf(Buy, Sell, 101), v);
  }

  /** A buyer meets a buyer of the other position; together they pay for the mint. */
  lemma MintIsMet(v: Venue)
    requires Plain(v)
    ensures var call := CallOf(Buy, Buy, 102);
      call.Aligned() && CallUsable(call, v) && Accepts(MatchOf(call, v, NoHash), MintMatch)
  {
    hide WordSpan;
    OneLeg(CallOf(Buy, Buy, 102), v);
  }

  /** A seller meets a seller of the other position; the merge pays both. */
  lemma MergeIsMet(v: Venue)
    requires Plain(v)
    ensures var call := CallOf(Sell, Sell, 102);
      call.Aligned() && CallUsable(call, v) && Accepts(MatchOf(call, v, NoHash), MergeMatch)
  {
    hide WordSpan;
    OneLeg(CallOf(Sell, Sell, 102), v);
  }

  // ----- and the whole calls settle

  /** A log that moves at most twenty units, or an event of a match. */
  predicate Small(log: Log) {
    match log
    case Moved(Cash(_, _, _, amount)) => amount <= 20
    case Moved(Single(_, _, _, _, _, amount)) => amount <= 20
    case Moved(_) => false
    case Noted(event) => !event.Emitted?
  }

  ghost predicate AllSmall(logs: seq<Log>) { forall log :: log in logs ==> Small(log) }

  lemma {:induction false} SmallTotal(logs: seq<Log>, meter: Meter)
    requires AllSmall(logs) && !meter.FeesCharged?
    ensures Total(logs, meter) <= 20 * |logs|
  {
    hide WordSpan;
    if logs != [] {
      var last := logs[|logs| - 1];
      assert last in logs && Small(last);
      SmallTotal(logs[..|logs| - 1], meter);
    }
  }

  lemma FewSmallFit(logs: seq<Log>, who: Address, v: Venue)
    requires |logs| <= 100 && AllSmall(logs)
    ensures FlowsFit(logs, who, v)
  {
    hide Total, AllSmall, WordSpan;
    SmallTotal(logs, Inflow(who, PositionA(v)));
    SmallTotal(logs, Outflow(who, PositionA(v)));
    SmallTotal(logs, Inflow(who, PositionB(v)));
    SmallTotal(logs, Outflow(who, PositionB(v)));
    SmallTotal(logs, Inflow(who, PusdCash()));
    SmallTotal(logs, Outflow(who, PusdCash()));
  }

  /** The amounts that the built logs can carry are at most twenty. */
  ghost predicate Modest(m: Match) {
    && |m.legs| == 1 && Plain(m.venue) && m.amounts.fee == 0 && m.amounts.fill <= 20
    && m.legs[0].fee == 0 && m.legs[0].fill <= 20 && m.legs[0].taking <= 20
    && All(m, SellFill) + All(m, BuyTaking) <= 20 && MintRefund(m) <= 20 && MergeTaking(m) <= 20
    && AllFees(m) == 0 && AllFills(m) <= 20
  }

  lemma SmallWord(n: int)
    requires n <= 20
    ensures Word(n) <= 20
  {
    hide WordSpan;
  }

  lemma SmallPass(m: Match, phase: Phase)
    requires Modest(m)
    ensures AllSmall(Pass(m, phase, 1)) && |Pass(m, phase, 1)| <= 4
  {
    hide WordSpan, Word, Small, AnyFees, MintRefund, MergeTaking, All, AllFees, AllFills;
    assert Pass(m, phase, 0) == [];
    assert Pass(m, phase, 1) == LegLogs(m, phase, m.legs[0]);
    SmallLeg(m, phase);
  }

  lemma SmallLeg(m: Match, phase: Phase)
    requires Modest(m)
    ensures AllSmall(LegLogs(m, phase, m.legs[0])) && |LegLogs(m, phase, m.legs[0])| <= 4
  {
    hide WordSpan, Word, AnyFees, MintRefund, MergeTaking, All, AllFees, AllFills;
    SmallWord(m.legs[0].taking - m.legs[0].fee);
    SmallWord(m.legs[0].fill + m.legs[0].fee);
  }

  lemma SmallClosings(m: Match)
    requires Modest(m)
    ensures AllSmall(NormalClosing(m)) && |NormalClosing(m)| <= 3
    ensures AllSmall(MintLogs(m, All(m, BuyTaking))) && |MintLogs(m, All(m, BuyTaking))| <= 5
    ensures AllSmall(MintClosing(m)) && |MintClosing(m)| <= 4
    ensures AllSmall(MergeLogs(m)) && |MergeLogs(m)| <= 5 && AllSmall(MergeClosing(m)) && |MergeClosing(m)| <= 3
    ensures AllSmall([MintDeposit(m)])
  {
    hide WordSpan, Word, AnyFees, MintRefund, MergeTaking, All, AllFees, AllFills;
    SmallWord(AllFills(m) - m.amounts.fee);
    SmallWord(All(m, BuyTaking));
    SmallWord(All(m, SellFill));
    SmallWord(All(m, SellFill) + All(m, BuyTaking));
    SmallWord(MintRefund(m));
    SmallWord(MergeTaking(m) - m.amounts.fee);
    SmallWord(m.amounts.fill + m.amounts.fee);
  }

  lemma SmallOutcome(m: Match, branch: Branch)
    requires Modest(m) && Accepts(m, branch)
    ensures AllSmall(Outcome(m, branch).logs) && |Outcome(m, branch).logs| <= 100
  {
    hide WordSpan, Modest, Pass, NormalClosing, MintClosing, MergeClosing, MintLogs, MergeLogs, MintDeposit, Receipt;
    hide NormalAccepts, MintAccepts, MergeAccepts, MintRefund, MergeTaking, All, AllFills, AllTakings, AllFees, Small;
    assert |m.legs| == 1 by { ModestLegs(m); }
    SmallPass(m, NormalPass);
    SmallPass(m, MintIntake);
    SmallPass(m, MintPayout);
    SmallPass(m, MergeIntake);
    SmallPass(m, MergePayout);
    SmallClosings(m);
    SmallReceipt(m, Outcome(m, branch).making, Outcome(m, branch).taking);
  }

  lemma ModestLegs(m: Match)
    requires Modest(m)
    ensures |m.legs| == 1
  {
    hide WordSpan;
  }

  lemma SmallReceipt(m: Match, making: nat, taking: nat)
    ensures AllSmall(Receipt(m, making, taking)) && |Receipt(m, making, taking)| == 2
  {
    hide WordSpan, Word;
  }

  /** No fee is always within the cap. */
  lemma NoFeeIsCapped(cash: U256)
    requires cash <= 1_000
    ensures FeeWithinCap(0, cash) == Some(true)
  {
    hide WordSpan;
  }

  /** Account 4 takes, account 5 makes, and all amounts are small. */
  ghost predicate IsModest(m: Match, branch: Branch)
    requires Accepts(m, branch)
  {
    Modest(m) && m.taker.maker == 4 && m.legs[0].order.maker == 5
    && Outcome(m, branch).making <= 20 && Outcome(m, branch).taking <= 20
  }

  /** An accepted match of these accounts and amounts settles for the taker, with a fill. */
  lemma ModestSettles(call: MatchOrdersCall, v: Venue)
    requires call.Aligned() && CallUsable(call, v)
    requires var m, branch := MatchOf(call, v, NoHash), TheBranch(call);
      Accepts(m, branch) && IsModest(m, branch)
    ensures Settles(call, 4, v, NoHash)
    ensures OwnerFills(MatchOf(call, v, NoHash), 4, Outcome(MatchOf(call, v, NoHash), TheBranch(call))) != []
  {
    hide WordSpan, Total, CallUsable, Accepts, Outcome, MatchOf, TheBranch, FlowsFit, AllSmall, FeeWithinCap, Net;
    hide MintRefund, MergeTaking, All, AllFees, AllFills, LegFills, Complementary, RoundedDown;
    var m, branch := MatchOf(call, v, NoHash), TheBranch(call);
    MatchNames(call, v);
    UsableLegs(call, v, NoHash);
    SmallOutcome(m, branch);
    FewSmallFit(Outcome(m, branch).logs, 1, v);
    FewSmallFit(Outcome(m, branch).logs, 4, v);
    ExchangeCheckNeverFails(m, branch);
    SmallWord(Outcome(m, branch).making);
    SmallWord(Outcome(m, branch).taking);
    NoFeeIsCapped(CashBasis(m.taker, Word(Outcome(m, branch).making), Word(Outcome(m, branch).taking)));
    NoFeeIsCapped(CashBasis(m.legs[0].order, m.legs[0].fill, m.legs[0].taking));
  }

  lemma MatchNames(call: MatchOrdersCall, v: Venue)
    requires call.Aligned()
    ensures MatchOf(call, v, NoHash).venue == v && TheBranch(call) == BranchFor(call.takerOrder, call.makerOrders)
  {
  }

  ghost predicate SettlesWithFill(call: MatchOrdersCall, v: Venue, branch: Branch) {
    && call.Aligned() && Settles(call, 4, v, NoHash) && TheBranch(call) == branch
    && OwnerFills(MatchOf(call, v, NoHash), 4, Outcome(MatchOf(call, v, NoHash), branch)) != []
  }

  /** Calls of all three branches settle for an owner that takes part in them. */
  lemma EveryBranchSettles(v: Venue)
    requires Plain(v)
    ensures SettlesWithFill(CallOf(Buy, Sell, 101), v, NormalMatch)
    ensures SettlesWithFill(CallOf(Buy, Buy, 102), v, MintMatch)
    ensures SettlesWithFill(CallOf(Sell, Sell, 102), v, MergeMatch)
  {
    hide Settles, Accepts, Outcome, MatchOf, OwnerFills, CallUsable, Modest, WordSpan;
    NormalIsMet(v);
    MintIsMet(v);
    MergeIsMet(v);
    NormalIsModest(v);
    MintIsModest(v);
    MergeIsModest(v);
    ModestSettles(CallOf(Buy, Sell, 101), v);
    ModestSettles(CallOf(Buy, Buy, 102), v);
    ModestSettles(CallOf(Sell, Sell, 102), v);
  }

  lemma NormalIsModest(v: Venue)
    requires Plain(v)
    ensures var call := CallOf(Buy, Sell, 101);
      call.Aligned() && TheBranch(call) == NormalMatch && Accepts(MatchOf(call, v, NoHash), NormalMatch)
      && IsModest(MatchOf(call, v, NoHash), NormalMatch)
  {
    hide WordSpan, Pass, NormalClosing, Receipt;
    NormalIsMet(v);
    OneLeg(CallOf(Buy, Sell, 101), v);
  }

  lemma MintIsModest(v: Venue)
    requires Plain(v)
    ensures var call := CallOf(Buy, Buy, 102);
      call.Aligned() && TheBranch(call) == MintMatch && Accepts(MatchOf(call, v, NoHash), MintMatch)
      && IsModest(MatchOf(call, v, NoHash), MintMatch)
  {
    hide WordSpan, Pass, MintLogs, MintClosing, Receipt;
    MintIsMet(v);
    OneLeg(CallOf(Buy, Buy, 102), v);
  }

  lemma MergeIsModest(v: Venue)
    requires Plain(v)
    ensures var call := CallOf(Sell, Sell, 102);
      call.Aligned() && TheBranch(call) == MergeMatch && Accepts(MatchOf(call, v, NoHash), MergeMatch)
      && IsModest(MatchOf(call, v, NoHash), MergeMatch)
  {
    hide WordSpan, Pass, MergeLogs, MergeClosing, Receipt;
    MergeIsMet(v);
    OneLeg(CallOf(Sell, Sell, 102), v);
  }
}
