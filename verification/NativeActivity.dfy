/** The activity of an owner over an interval: the scan for trades, then the module replay over the
    same evidence with the facts that the scan found. */
module NativeActivity {
  import opened Words
  import opened MatchCall
  import opened Receipts
  import opened ModuleOperations
  import opened ModuleLaws
  import opened ModuleTheorems
  import Inventory
  import ModuleReplay
  import NativeScan
  import Trades

  datatype ActivityStatus =
    | ActivityMatched
    | BoundaryMismatch
    | ModuleStateUnavailable
    | TradeRefused(failure: NativeScan.Failure)
    | OfModule(status: Status)

  /** At the opening the module holds nothing and may mint. */
  predicate ModuleIsReady(openingModule: Balances, s: Setup) { openingModule == NOTHING && HasMinterRole(s.roles) }

  /** The last authenticated balances are the opening ones, the fills of the facts and the
      operations, and nothing is left with the module. */
  ghost predicate ActivityIsExplained(blocks: seq<Block>, points: seq<Point>, s: Setup, facts: seq<Trades.TradeFact>,
                                      operations: seq<Operation>)
    requires 0 < |blocks| == |points|
  {
    && points[|blocks| - 1].module_ == NOTHING
    && forall i :: Inventory.Get(blocks[|blocks| - 1].authenticated, i)
                   == Inventory.Get(s.opening, i) + AllFillsNet(facts, s, i) + OperationsNet(operations, i)
  }

  /** Classifies the activity. Facts and operations are reported on a match only; then they explain
      every balance. A fact of the scan never fails to be registered. */
  method ClassifyActivity(blocks: seq<Block>, points: seq<Point>, s: Setup, openingModule: Balances,
                          hash: MatchOrder -> Hash, through: U64)
    returns (status: ActivityStatus, facts: seq<Trades.TradeFact>, operations: seq<Operation>,
             ghost css: seq<seq<Trades.Classification>>)
    requires Trades.ValidBlocks(blocks) && InOrder(blocks) && s.IdA() != s.IdB()
    ensures status.BoundaryMismatch? <==> |points| != |blocks|
    ensures status.ModuleStateUnavailable? <==> |points| == |blocks| && !ModuleIsReady(openingModule, s)
    ensures status.TradeRefused? ==> |css| < |blocks| && Scanned(css, blocks, s, hash)
    ensures status.TradeRefused? ==>
      exists cs :: NativeScan.StoppedAt(cs, status.failure, blocks[|css|], s.owner, s.desk, true, hash)
    ensures status.ActivityMatched? || status.OfModule? ==>
      |points| == |blocks| == |css| && Scanned(css, blocks, s, hash)
    ensures status.OfModule? ==> status.status == Interval(blocks, points, s, Trades.CollectedAll(css), through)
                                 && !status.status.Matched?
    ensures status.ActivityMatched? ==>
      facts == Trades.CollectedAll(css) && Interval(blocks, points, s, facts, through) == Matched(operations)
    ensures status.ActivityMatched? && blocks != [] ==> ActivityIsExplained(blocks, points, s, facts, operations)
    ensures !status.ActivityMatched? ==> facts == [] && operations == []
  {
    hide Scanned, NativeScan.StoppedAt, Registrable, Interval, InOrder, ActivityIsExplained, Trades.CollectedAll;
    facts, operations, css := [], [], [];
    if |points| != |blocks| { return BoundaryMismatch, facts, operations, css; }
    if !ModuleIsReady(openingModule, s) { return ModuleStateUnavailable, facts, operations, css; }
    var found, failure;
    found, failure, css := NativeScan.ScanInterval(blocks, s.owner, s.desk, true, hash);
    assert Scanned(css, blocks, s, hash) by { IsScanned(css, blocks, s, hash); }
    if failure.Some? { return TradeRefused(failure.value), facts, operations, css; }
    TradeFactsRegister(css, blocks, s, hash);
    var replayed := ModuleReplay.ClassifyModuleInterval(blocks, points, s, found, through);
    if !replayed.Matched? { return OfModule(replayed), facts, operations, css; }
    status, facts, operations := ActivityMatched, found, replayed.operations;
    if blocks != [] { MatchIsExplained(blocks, points, s, hash, css, through); }
  }

  lemma IsScanned(css: seq<seq<Trades.Classification>>, blocks: seq<Block>, s: Setup, hash: MatchOrder -> Hash)
    requires Trades.ValidBlocks(blocks) && NativeScan.AllScanned(css, blocks, s.owner, s.desk, true, hash)
    ensures Scanned(css, blocks, s, hash)
  {
  }

  lemma MatchIsExplained(blocks: seq<Block>, points: seq<Point>, s: Setup, hash: MatchOrder -> Hash,
                         css: seq<seq<Trades.Classification>>, through: U64)
    requires 0 < |blocks| == |points| == |css| && Trades.ValidBlocks(blocks) && InOrder(blocks)
    requires Scanned(css, blocks, s, hash) && s.IdA() != s.IdB()
    requires Interval(blocks, points, s, Trades.CollectedAll(css), through).Matched?
    ensures ActivityIsExplained(blocks, points, s, Trades.CollectedAll(css),
                                Interval(blocks, points, s, Trades.CollectedAll(css), through).operations)
  {
    hide Scanned, Interval, InOrder, Trades.CollectedAll, AllFillsNet, OperationsNet, Inventory.Get;
    BothExplain(css, blocks, points, s, hash, through, Inventory.PositionA);
    forall i {
      BothExplain(css, blocks, points, s, hash, through, i);
    }
  }
}
