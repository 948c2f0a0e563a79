/** A small interval in which a trade, a funding and an operation stand side by side: both replays
    accept it together, so the theorems that join them speak of something. */
module ModuleWitness {
  import opened Words
  import opened Ledger
  import opened MatchCall
  import opened Receipts
  import opened ModuleCalls
  import opened ModuleOperations
  import opened ModuleLaws
  import opened ModuleTheorems
  import CallSettlement
  import Inventory
  import MatchCodec
  import MatchTheorems
  import MatchWitness
  import NativeScan
  import Settlement
  import SettlementLaws
  import Trades

  /** Account 4 owns ten thousand of everything; the token contracts are accounts 6 and 7. */
  function SetupOf(module_: Address): Setup {
    Setup(4, Trades.Desk(Settlement.Venue(1, 2, module_, 101, 102), 6, 7), 0, 0, None, 1,
          Balances(10_000, 10_000, 10_000))
  }

  /** The owner buys twenty positions of account 5 for ten units of cash. */
  function TradeCall(): MatchOrdersCall { MatchWitness.CallOf(Buy, Sell, 101) }

  // ----- the trade

  lemma CallIsDecoded()
    ensures MatchCodec.Encodable(TradeCall())
    ensures MatchCodec.DecodeCall(MatchCodec.EncodeCall(TradeCall())) == Some(TradeCall())
    ensures MatchCodec.SELECTOR <= MatchCodec.EncodeCall(TradeCall())
  {
    hide WordSpan, MatchCodec.DecodeCall, MatchCodec.EncodeOrder, MatchCodec.Padded, MatchCodec.HeadWords;
    var call := TradeCall();
    assert |MatchCodec.Tails(call.makerOrders)| <= MatchCodec.MAX_ORDER_BYTES;
    assert |MatchCodec.EncodeArgs(call)| <= 100_000;
    MatchCodec.CallRoundTrip(MatchCodec.EncodeCall(call), call);
  }

  ghost function TradeOutcome(s: Setup): Settlement.Built
    requires TradeSettles(s)
  {
    SettlementLaws.Outcome(TradeMatch(s), Settlement.NormalMatch)
  }

  ghost function TradeMatch(s: Setup): Settlement.Match {
    CallSettlement.MatchOf(TradeCall(), s.desk.venue, MatchWitness.NoHash)
  }

  ghost predicate TradeSettles(s: Setup) {
    && TradeCall().Aligned() && MatchWitness.SettlesWithFill(TradeCall(), s.desk.venue, Settlement.NormalMatch)
    && SettlementLaws.Accepts(TradeMatch(s), Settlement.NormalMatch)
  }

  lemma TradeIsSettled(s: Setup)
    requires MatchWitness.Plain(s.desk.venue)
    ensures TradeSettles(s)
  {
    hide WordSpan, MatchWitness.SettlesWithFill, SettlementLaws.Accepts, CallSettlement.CallUsable;
    MatchWitness.EveryBranchSettles(s.desk.venue);
    MatchWitness.NormalIsMet(s.desk.venue);
  }

  /** What the trade's outcome says of the owner. */
  lemma TradeOutcomeIs(s: Setup)
    requires MatchWitness.Plain(s.desk.venue) && TradeSettles(s)
    ensures var built := TradeOutcome(s);
      && MatchWitness.AllSmall(built.logs) && |built.logs| <= 100
      && CallSettlement.OwnerFills(TradeMatch(s), 4, built)
         == [CallSettlement.Fill(0, TradeCall().takerOrder, 10, 20, 0, CallSettlement.TakerRole)]
  {
    hide WordSpan, Settlement.Pass, Settlement.NormalClosing, Settlement.Receipt, MatchWitness.AllSmall;
    MatchWitness.NormalIsModest(s.desk.venue);
    MatchWitness.SmallOutcome(TradeMatch(s), Settlement.NormalMatch);
    MatchWitness.OneLeg(TradeCall(), s.desk.venue);
    assert CallSettlement.LegFills(TradeMatch(s), 4, 1)
        == CallSettlement.LegFills(TradeMatch(s), 4, 0) + CallSettlement.OwnFill(TradeMatch(s).legs[0], 4);
  }

  ghost predicate IsTrade(tx: Transaction, s: Setup)
    requires TradeSettles(s)
  {
    && tx.hash == 11 && tx.index == 0 && tx.succeeded && tx.to == Some(1) && tx.recoveredFrom == Some(9)
    && tx.input == Some(MatchCodec.EncodeCall(TradeCall())) && tx.replayProtected && tx.value == 0
    && tx.logs == TradeOutcome(s).logs && tx.Valid()
  }

  method MakeTrade(s: Setup) returns (tx: Transaction)
    requires s == SetupOf(s.Module())
    ensures TradeSettles(s) && IsTrade(tx, s)
  {
    hide CallSettlement.Settles, CallSettlement.OwnerFills, SettlementLaws.Outcome, SettlementLaws.Accepts, WordSpan;
    hide CallSettlement.MatchOf, MatchCodec.EncodeCall;
    TradeIsSettled(s);
    CallIsDecoded();
    var settlement := CallSettlement.BuildSettlement(TradeCall(), 4, s.desk.venue, MatchWitness.NoHash);
    var logs := settlement.value.logs;
    tx := Transaction(11, 0, true, Some(1), Some(MatchCodec.EncodeCall(TradeCall())), Some(9), true, 0, logs,
                      seq(|logs|, _ => 0));
  }

  /** The accounts of the witness. The module may be anyone that is not the owner, the Exchange or
      a token contract; it may even be the maker. */
  ghost predicate IsWitness(s: Setup) { s == SetupOf(s.Module()) && s.Module() !in {0, 1, 2, 4, 6, 7} }

  lemma NoControlEvent(tx: Transaction, s: Setup)
    requires MatchWitness.AllSmall(tx.logs)
    ensures !NativeScan.HasControlEvent(tx.logs, s.desk)
  {
    forall log | log in tx.logs
      ensures !(log.Noted? && log.event.Emitted?)
    {
      assert MatchWitness.Small(log);
    }
  }

  /** The scan takes the trade as a fact with the owner's one fill. */
  lemma TradeIsFact(c: Trades.Classification, block: Block, tx: Transaction, s: Setup)
    requires IsWitness(s) && TradeSettles(s) && IsTrade(tx, s)
    requires Trades.Classifies(c, block, tx, s.owner, s.desk, MatchWitness.NoHash)
    ensures c.Fact? && c.fact.blockNumber == block.number && c.fact.transactionIndex == 0
    ensures CallSettlement.FlowsAre(c.fact.flows, tx.logs, 4, s.desk.venue)
    ensures c.fact.fills == [CallSettlement.Fill(0, TradeCall().takerOrder, 10, 20, 0, CallSettlement.TakerRole)]
  {
    hide Trades.HasOwnerActivity, Trades.HasOwnerEvent, CallSettlement.Settles, CallSettlement.OwnerFills, WordSpan;
    hide SettlementLaws.Outcome, SettlementLaws.Accepts, CallSettlement.MatchOf, MatchCodec.EncodeCall;
    hide MatchCodec.DecodeCall, CallSettlement.FlowsAre, CallSettlement.FillFees, Trades.IsBinding;
    CallIsDecoded();
    TradeOutcomeIs(s);
  }

  lemma TradePasses(c: Trades.Classification, refusal: NativeScan.Refusal, block: Block, tx: Transaction, s: Setup)
    requires IsWitness(s) && TradeSettles(s) && IsTrade(tx, s)
    ensures !NativeScan.Stops(refusal, block, tx, s.owner, s.desk, true, MatchWitness.NoHash)
    ensures NativeScan.Passes(c, block, tx, s.owner, s.desk, true, MatchWitness.NoHash) ==>
      Trades.Classifies(c, block, tx, s.owner, s.desk, MatchWitness.NoHash)
  {
    hide Trades.Classifies, NativeScan.HasControlEvent, MatchCodec.EncodeCall, WordSpan;
    TradeOutcomeIs(s);
    NoControlEvent(tx, s);
    CallIsDecoded();
    if NativeScan.Stops(refusal, block, tx, s.owner, s.desk, true, MatchWitness.NoHash) {
      TradeIsFact(Trades.Unavailable(refusal.reason), block, tx, s);
    }
  }

  // ----- the funding and the operation

  function FundingTransaction(s: Setup): Transaction {
    Transaction(12, 1, true, Some(7), Some(EncodeFunding(FundPusd(5), s.Parties())), Some(4), true, 0,
                FundingLogs(FundPusd(5), s), [0])
  }

  function OperationTransaction(s: Setup): Transaction {
    Transaction(13, 2, true, Some(s.Module()), Some(EncodeModuleCall(Split(5), s.Parties())), Some(4), true, 0,
                OperationLogs(Split(5), None, s), [0, 1, 2, 3])
  }

  lemma CallsAreRead(s: Setup)
    requires IsWitness(s)
    ensures FundingOf(FundingTransaction(s), s) == Some(FundPusd(5)) && CallOf(FundingTransaction(s), s) == None
    ensures CallOf(OperationTransaction(s), s) == Some(Split(5)) && FundingOf(OperationTransaction(s), s) == None
  {
    hide ParsePusdFunding, ParseModuleCall, EncodeFunding, EncodeModuleCall, WordSpan;
    PusdFundingRoundTrip(EncodeFunding(FundPusd(5), s.Parties()), FundPusd(5), s.Parties());
    ModuleCallRoundTrip(EncodeModuleCall(Split(5), s.Parties()), Split(5), s.Parties());
  }

  lemma OthersAreSkipped(c: Trades.Classification, refusal: NativeScan.Refusal, block: Block, tx: Transaction, s: Setup)
    requires IsWitness(s) && tx in {FundingTransaction(s), OperationTransaction(s)}
    ensures tx.Valid() && !NativeScan.Stops(refusal, block, tx, s.owner, s.desk, true, MatchWitness.NoHash)
    ensures NativeScan.Passes(c, block, tx, s.owner, s.desk, true, MatchWitness.NoHash) ==> c == Trades.Quiet
  {
    hide EncodeFunding, EncodeModuleCall, Trades.Classifies, WordSpan;
  }

  // ----- the scan and the replay

  function WitnessBlock(trade: Transaction, s: Setup): Block {
    Block(1, 21, [trade, FundingTransaction(s), OperationTransaction(s)], Balances(10_025, 10_005, 9_985))
  }

  const POINT := Point(NOTHING, 1, true, false)

  /** The fact that the scan finds. */
  ghost predicate IsFound(fact: Trades.TradeFact, s: Setup) {
    && fact.blockNumber == 1 && fact.transactionIndex == 0
    && fact.flows.inA <= 2_000 && fact.flows.inB <= 2_000 && fact.flows.cashIn <= 2_000
    && Trades.FlowOf(fact, s.desk.venue, Inventory.PositionA) == 20
    && Trades.FlowOf(fact, s.desk.venue, Inventory.PositionB) == 0
    && Trades.FlowOf(fact, s.desk.venue, Inventory.PusdCash) == -10
  }

  lemma TradeIsFound(c: Trades.Classification, block: Block, tx: Transaction, s: Setup)
    requires IsWitness(s) && TradeSettles(s) && IsTrade(tx, s) && block.number == 1
    requires Trades.Classifies(c, block, tx, s.owner, s.desk, MatchWitness.NoHash)
    ensures c.Fact? && IsFound(c.fact, s)
  {
    hide Trades.Classifies, Total, MatchWitness.AllSmall, MatchTheorems.FillsNet, WordSpan;
    TradeIsFact(c, block, tx, s);
    TradeOutcomeIs(s);
    MatchWitness.SmallTotal(tx.logs, Inflow(4, CallSettlement.PositionA(s.desk.venue)));
    MatchWitness.SmallTotal(tx.logs, Inflow(4, CallSettlement.PositionB(s.desk.venue)));
    MatchWitness.SmallTotal(tx.logs, Inflow(4, CallSettlement.PusdCash()));
    Trades.FactIsFills(c, block, tx, s.owner, s.desk, MatchWitness.NoHash);
    assert Trades.FillsExplain(c.fact, 4, s.desk.venue);
    OneFill(c.fact.fills, s, Inventory.PositionA);
    OneFill(c.fact.fills, s, Inventory.PositionB);
    OneFill(c.fact.fills, s, Inventory.PusdCash);
  }

  lemma OneFill(fills: seq<CallSettlement.Fill>, s: Setup, i: AssetIndex)
    requires IsWitness(s)
    requires fills == [CallSettlement.Fill(0, TradeCall().takerOrder, 10, 20, 0, CallSettlement.TakerRole)]
    ensures MatchTheorems.FillsNet(fills, 4, Trades.AssetAt(4, s.desk.venue, i))
      == match i case PositionA => 20 case PositionB => 0 case PusdCash => -10
  {
    hide WordSpan;
    assert fills[..0] == [];
  }

  lemma TradeApplies(fact: Trades.TradeFact, s: Setup)
    requires IsWitness(s) && IsFound(fact, s)
    ensures ApplyTrade(s.opening, fact) == Some(Balances(10_020, 10_000, 9_990))
  {
    hide WordSpan;
  }

  function Traded(): State { State(Balances(10_020, 10_000, 9_990), NOTHING, [], [], map[]) }

  function Pending(block: Block, s: Setup): Funding { FundingFact(block, FundingTransaction(s), s, FundPusd(5)) }

  function Funded(block: Block, s: Setup): State {
    State(Balances(10_020, 10_000, 9_985), Balances(0, 0, 5), [Pending(block, s)], [], map[])
  }

  function Done(block: Block, s: Setup): State {
    State(Balances(10_025, 10_005, 9_985), NOTHING, [],
          [Operation(Split(5), None, Inflows(Split(5), None), Outflows(Split(5), s), [Pending(block, s)],
                     LocatorOf(block, OperationTransaction(s)))],
          map[])
  }

  lemma TradeVisited(fact: Trades.TradeFact, block: Block, trade: Transaction, s: Setup)
    requires IsWitness(s) && TradeSettles(s) && IsTrade(trade, s) && IsFound(fact, s) && block.number == 1
    ensures Visit(Start(s, [fact]), block, trade, s) == Going(Traded())
  {
    hide WordSpan, CallOf, FundingOf, ApplyTrade, HasRelevantMovement, IsFound, ByKey, IsTrade, TradeSettles;
    Places(fact, trade, s);
    OnlyKey(fact);
    TradeApplies(fact, s);
    assert map[(1, 0) := fact] - {(1, 0)} == map[];
  }

  lemma Places(fact: Trades.TradeFact, trade: Transaction, s: Setup)
    requires TradeSettles(s) && IsTrade(trade, s) && IsFound(fact, s)
    ensures fact.blockNumber == 1 && fact.transactionIndex == 0 == trade.index
  {
    TradeIsValid(trade, s);
  }

  lemma FundingVisited(block: Block, s: Setup)
    requires IsWitness(s)
    ensures Visit(Traded(), block, FundingTransaction(s), s) == Going(Funded(block, s))
  {
    hide WordSpan, CallOf, FundingOf, HasRelevantMovement, FundingLogs;
    CallsAreRead(s);
  }

  lemma OperationVisited(block: Block, s: Setup)
    requires IsWitness(s)
    ensures Visit(Funded(block, s), block, OperationTransaction(s), s) == Going(Done(block, s))
  {
    hide WordSpan, CallOf, FundingOf, HasRelevantMovement, OperationLogs, PendingMatches;
    CallsAreRead(s);
    OnePending(Pending(block, s));
  }

  lemma OnePending(f: Funding)
    requires f.amount == 5 && f.asset == Inventory.PusdCash
    ensures PendingMatches([f], Split(5))
  {
    hide WordSpan;
    assert [f][..0] == [] && PendingAmount([], None) == Some(0);
    assert PendingAmount([f], None) == CheckedAdd(0, 5);
  }

  /** The replay meets the fact, then the funding, then the operation that uses it up. */
  lemma ReplayMatches(fact: Trades.TradeFact, trade: Transaction, s: Setup)
    requires IsWitness(s) && TradeSettles(s) && IsTrade(trade, s) && IsFound(fact, s)
    ensures var status := Interval([WitnessBlock(trade, s)], [POINT], s, [fact], 1);
      status.Matched? && |status.operations| == 1
  {
    hide WordSpan, Visit, Start, IsTrade, IsFound, TradeSettles, FundingTransaction, OperationTransaction;
    var block, start := WitnessBlock(trade, s), Start(s, [fact]);
    TradeVisited(fact, block, trade, s);
    FundingVisited(block, s);
    OperationVisited(block, s);
    assert VisitAll(start, block, s, 0) == Going(start);
    assert VisitAll(start, block, s, 1) == Going(Traded());
    assert VisitAll(start, block, s, 2) == Going(Funded(block, s));
    assert VisitAll(start, block, s, 3) == Going(Done(block, s));
    assert Boundary(Done(block, s), block, POINT, s) == Going(Done(block, s));
    assert Through(start, [block], [POINT], s, 0) == Going(start);
    assert Through(start, [block], [POINT], s, 1) == Going(Done(block, s));
  }

  lemma OnlyKey(fact: Trades.TradeFact)
    requires fact.blockNumber == 1 && fact.transactionIndex == 0
    ensures ByKey([fact]) == map[(1, 0) := fact]
  {
    assert [fact][..0] == [];
  }

  ghost predicate IsWitnessBlock(block: Block, s: Setup)
    requires TradeSettles(s)
  {
    |block.transactions| == 3 && block == WitnessBlock(block.transactions[0], s) && IsTrade(block.transactions[0], s)
  }

  /** The scan and the replay both accept the evidence, with one fact and one operation. */
  ghost predicate AcceptedTogether(blocks: seq<Block>, points: seq<Point>, facts: seq<Trades.TradeFact>,
                                   css: seq<seq<Trades.Classification>>, s: Setup)
  {
    && |blocks| == |points| == |css| && Trades.ValidBlocks(blocks) && InOrder(blocks) && s.Separate()
    && Scanned(css, blocks, s, MatchWitness.NoHash) && facts == Trades.CollectedAll(css) && |facts| == 1
    && Interval(blocks, points, s, facts, 1).Matched? && |Interval(blocks, points, s, facts, 1).operations| == 1
  }

  /** An interval with a trade fact and an operation that both replays accept together. */
  method ScannedTogether(module_: Address)
    returns (blocks: seq<Block>, facts: seq<Trades.TradeFact>, ghost css: seq<seq<Trades.Classification>>)
    requires module_ !in {0, 1, 2, 4, 6, 7}
    ensures AcceptedTogether(blocks, [POINT], facts, css, SetupOf(module_))
    ensures TradeSettles(SetupOf(module_)) && |blocks| == 1 && IsWitnessBlock(blocks[0], SetupOf(module_))
  {
    hide NativeScan.Passes, NativeScan.Stops, TradeSettles, IsTrade, IsFound, Interval, SettlementLaws.Outcome;
    hide FundingTransaction, OperationTransaction, WordSpan;
    var s := SetupOf(module_);
    var trade := MakeTrade(s);
    blocks := [WitnessBlock(trade, s)];
    BlocksAreInOrder(trade, s);
    var failure;
    facts, failure, css := NativeScan.ScanInterval(blocks, s.owner, s.desk, true, MatchWitness.NoHash);
    if failure.Some? {
      ghost var cs :| NativeScan.StoppedAt(cs, failure.value, blocks[0], s.owner, s.desk, true, MatchWitness.NoHash);
      NothingStops(|cs|, failure.value.refusal, trade, s);
      assert false;
    }
    OneFact(css[0], trade, s);
    assert css == [css[0]] && css[..0] == [];
    ReplayMatches(facts[0], trade, s);
    assert facts == [facts[0]];
  }

  lemma BlocksAreInOrder(trade: Transaction, s: Setup)
    requires IsWitness(s) && TradeSettles(s) && IsTrade(trade, s)
    ensures Trades.ValidBlocks([WitnessBlock(trade, s)]) && InOrder([WitnessBlock(trade, s)]) && s.Separate()
  {
    hide WordSpan, EncodeFunding, EncodeModuleCall, IsTrade, TradeSettles;
    TradeIsValid(trade, s);
  }

  lemma NothingStops(t: nat, refusal: NativeScan.Refusal, trade: Transaction, s: Setup)
    requires IsWitness(s) && TradeSettles(s) && IsTrade(trade, s) && t < 3
    ensures var block := WitnessBlock(trade, s);
      && block.transactions[t].Valid()
      && !NativeScan.Stops(refusal, block, block.transactions[t], s.owner, s.desk, true, MatchWitness.NoHash)
  {
    hide NativeScan.Stops, NativeScan.Passes, FundingTransaction, OperationTransaction, IsWitness, IsTrade;
    hide TradeSettles, Transaction.Valid;
    var block := WitnessBlock(trade, s);
    TradeIsValid(trade, s);
    TradePasses(Trades.Quiet, refusal, block, trade, s);
    OthersAreSkipped(Trades.Quiet, refusal, block, FundingTransaction(s), s);
    OthersAreSkipped(Trades.Quiet, refusal, block, OperationTransaction(s), s);
  }

  lemma TradeIsValid(trade: Transaction, s: Setup)
    requires TradeSettles(s) && IsTrade(trade, s)
    ensures trade.Valid() && trade.index == 0
  {
    hide TradeSettles, TradeOutcome, WordSpan;
  }

  /** The scan of the block collects one fact, and it is the trade. */
  lemma OneFact(cs: seq<Trades.Classification>, trade: Transaction, s: Setup)
    requires IsWitness(s) && TradeSettles(s) && IsTrade(trade, s) && |cs| == 3
    requires Trades.ValidTransactions(WitnessBlock(trade, s))
    requires BlockScanned(cs, WitnessBlock(trade, s), s, MatchWitness.NoHash)
    ensures cs[0].Fact? && IsFound(cs[0].fact, s) && Trades.Collected(cs) == [cs[0].fact]
  {
    hide NativeScan.Passes, NativeScan.Stops, Trades.Classifies, IsWitness, IsTrade, IsFound, TradeSettles;
    hide FundingTransaction, OperationTransaction;
    var block := WitnessBlock(trade, s);
    TradePasses(cs[0], NativeScan.ControlTransition, block, trade, s);
    TradeIsFound(cs[0], block, trade, s);
    OthersAreSkipped(cs[1], NativeScan.ControlTransition, block, block.transactions[1], s);
    OthersAreSkipped(cs[2], NativeScan.ControlTransition, block, block.transactions[2], s);
    assert cs[..2][..1] == cs[..1] && cs[..1][..0] == [];
    assert Trades.Collected(cs[..1]) == [cs[0].fact];
    assert Trades.Collected(cs[..2]) == [cs[0].fact];
  }

  // ----- a module that trades

  lemma MakerFill(s: Setup)
    requires IsWitness(s) && s.Module() == 5 && TradeSettles(s)
    ensures CallSettlement.OwnerFills(TradeMatch(s), 5, TradeOutcome(s))
      == [CallSettlement.Fill(0, TradeCall().makerOrders[0], 20, 10, 0, CallSettlement.MakerRole)]
  {
    hide WordSpan, SettlementLaws.Outcome, SettlementLaws.Accepts, CallSettlement.MatchOf, TradeSettles;
    var m := TradeMatch(s);
    MakerLeg(s);
    assert CallSettlement.LegFills(m, 5, 0) == [];
    assert CallSettlement.LegFills(m, 5, 1) == [] + CallSettlement.OwnFill(m.legs[0], 5);
    assert CallSettlement.TakerFills(m, 5, TradeOutcome(s).making, TradeOutcome(s).taking) == [];
  }

  lemma MakerLeg(s: Setup)
    ensures TradeMatch(s).legs == [Settlement.Leg(TradeCall().makerOrders[0], 0, 20, 10, 0)]
    ensures TradeMatch(s).taker.maker == 4
  {
    hide WordSpan;
    MatchWitness.OneLeg(TradeCall(), s.desk.venue);
  }

  lemma MakerFillIsTen(fills: seq<CallSettlement.Fill>)
    requires fills == [CallSettlement.Fill(0, TradeCall().makerOrders[0], 20, 10, 0, CallSettlement.MakerRole)]
    ensures MatchTheorems.FillsNet(fills, 5, CallSettlement.PusdCash()) == 10
  {
    hide WordSpan;
    assert fills[..0] == [];
  }

  /** When the module is the maker it earns ten units of cash in the trade. */
  lemma MakerEarns(trade: Transaction, s: Setup)
    requires IsWitness(s) && s.Module() == 5 && TradeSettles(s) && IsTrade(trade, s)
    ensures ModuleNet(trade.logs, s, Inventory.PusdCash) == 10
  {
    hide SettlementLaws.Outcome, SettlementLaws.Accepts, MatchCodec.EncodeCall, MatchCodec.DecodeCall, WordSpan, Net;
    hide CallSettlement.OwnerFills, MatchTheorems.FillsNet, CallSettlement.MatchOf, CallSettlement.Settles, TradeCall;
    CallIsDecoded();
    SettledMoves(TradeCall(), trade, s, MatchWitness.NoHash, Inventory.PusdCash);
    MakerFill(s);
    MakerFillIsTen(CallSettlement.OwnerFills(TradeMatch(s), 5, TradeOutcome(s)));
  }

  lemma BlockLogsNet(block: Block, s: Setup)
    requires IsWitness(s) && s.Module() == 5 && TradeSettles(s) && IsWitnessBlock(block, s)
    ensures ModuleNet(BlockLogs(block), s, Inventory.PusdCash) == 10
  {
    hide *;
    WitnessBlockIs(block, s);
    NetOfThreeTransactions(block, s, Inventory.PusdCash);
    MakerEarns(block.transactions[0], s);
    OthersCancel(s);
  }

  lemma WitnessBlockIs(block: Block, s: Setup)
    requires TradeSettles(s) && IsWitnessBlock(block, s)
    ensures |block.transactions| == 3 && IsTrade(block.transactions[0], s)
    ensures block.transactions[1] == FundingTransaction(s) && block.transactions[2] == OperationTransaction(s)
  {
    hide TradeSettles, IsTrade, FundingTransaction, OperationTransaction;
  }

  lemma NetOfThreeTransactions(block: Block, s: Setup, i: AssetIndex)
    requires |block.transactions| == 3
    ensures var txs := block.transactions;
      ModuleNet(BlockLogs(block), s, i)
      == ModuleNet(txs[0].logs, s, i) + ModuleNet(txs[1].logs, s, i) + ModuleNet(txs[2].logs, s, i)
  {
    hide Net, AssetOf, BlockLogs, WordSpan;
    NetLaws(s.Module(), AssetOf(s, i));
    LogsOfThree(block);
  }

  lemma LogsOfThree(block: Block)
    requires |block.transactions| == 3
    ensures BlockLogs(block)
      == [] + block.transactions[0].logs + block.transactions[1].logs + block.transactions[2].logs
  {
    var txs := block.transactions;
    assert TransactionsLogs(txs, 0) == [] && TransactionsLogs(txs, 1) == [] + txs[0].logs;
    assert TransactionsLogs(txs, 2) == TransactionsLogs(txs, 1) + txs[1].logs;
  }

  lemma OneBlock(blocks: seq<Block>)
    requires |blocks| == 1
    ensures BlocksLogs(blocks, 1) == [] + BlockLogs(blocks[0]) == BlockLogs(blocks[0])
  {
    assert BlocksLogs(blocks, 0) == [];
  }

  lemma OthersCancel(s: Setup)
    requires IsWitness(s)
    ensures ModuleNet(FundingTransaction(s).logs, s, Inventory.PusdCash) == 5
    ensures ModuleNet(OperationTransaction(s).logs, s, Inventory.PusdCash) == -5
  {
    hide Net, EncodeFunding, EncodeModuleCall, FundingLogs, OperationLogs, AssetOf, WordSpan;
    FundingLogsMove(FundPusd(5), s, Inventory.PusdCash);
    OperationLogsMove(Split(5), None, s, Inventory.PusdCash);
  }

  /** The same interval when the module is the maker: both replays still match, with the module's
      authenticated balance nothing, and yet the logs move ten units of cash to the module. */
  method ModuleMakerDiffers()
    returns (blocks: seq<Block>, facts: seq<Trades.TradeFact>, ghost css: seq<seq<Trades.Classification>>)
    ensures AcceptedTogether(blocks, [POINT], facts, css, SetupOf(5)) && POINT.module_ == NOTHING
    ensures |blocks| == 1 && ModuleNet(BlocksLogs(blocks, 1), SetupOf(5), Inventory.PusdCash) == 10
  {
    hide TradeSettles, IsWitnessBlock, AcceptedTogether, ModuleNet, BlocksLogs, WordSpan;
    blocks, facts, css := ScannedTogether(5);
    BlockLogsNet(blocks[0], SetupOf(5));
    OneBlock(blocks);
  }
}
