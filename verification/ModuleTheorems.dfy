/** The two replays joined: the facts that the scan of an interval collects, handed to the module
    replay of the same evidence, where funding and operations stand among the trades. */
module ModuleTheorems {
  import opened Words
  import opened Ledger
  import opened MatchCall
  import opened Receipts
  import opened ModuleOperations
  import opened ModuleLaws
  import CallSettlement
  import Inventory
  import MatchTheorems
  import NativeScan
  import Settlement
  import SettlementLaws
  import Trades

  // ----- the evidence

  /** A transaction's index is its place in the block. */
  ghost predicate Indexed(block: Block) {
    forall t :: 0 <= t < |block.transactions| ==> block.transactions[t].index == t
  }

  /** Blocks in ascending order, every transaction at its place. */
  ghost predicate InOrder(blocks: seq<Block>) {
    Trades.Ascending(blocks) && forall k :: 0 <= k < |blocks| ==> Indexed(blocks[k])
  }

  /** The scan passes every transaction of the first blocks; what is sent to the module or to a
      token contract it leaves to the module replay. */
  ghost predicate Scanned(css: seq<seq<Trades.Classification>>, blocks: seq<Block>, s: Setup,
                          hash: MatchOrder -> Hash)
    requires Trades.ValidBlocks(blocks)
  {
    NativeScan.AllScanned(css, blocks, s.owner, s.desk, true, hash)
  }

  ghost predicate BlockScanned(cs: seq<Trades.Classification>, block: Block, s: Setup, hash: MatchOrder -> Hash)
    requires Trades.ValidTransactions(block)
  {
    NativeScan.Scanned(cs, block, s.owner, s.desk, true, hash)
  }

  // ----- what one fact moves

  ghost predicate IsMatch(tx: Transaction) { tx.input.Some? && Trades.CallOf(tx).Some? }

  ghost function MatchIn(tx: Transaction, s: Setup, hash: MatchOrder -> Hash): Settlement.Match
    requires IsMatch(tx)
  {
    CallSettlement.MatchOf(Trades.CallOf(tx).value, s.desk.venue, hash)
  }

  /** What the module's own orders in a match are worth to it, and the fees if it receives them. */
  ghost function ModuleTrade(tx: Transaction, s: Setup, hash: MatchOrder -> Hash, i: AssetIndex): int {
    if !IsMatch(tx) || !SettlementLaws.Accepts(MatchIn(tx, s, hash), BranchIn(tx)) then
      0
    else
      var m := MatchIn(tx, s, hash);
      var built := SettlementLaws.Outcome(m, BranchIn(tx));
      MatchTheorems.FillsNet(CallSettlement.OwnerFills(m, s.Module(), built), s.Module(), AssetOf(s, i))
      + if s.Module() == s.desk.venue.feeReceiver && i.PusdCash? then built.fees else 0
  }

  ghost function BranchIn(tx: Transaction): Settlement.Branch
    requires IsMatch(tx)
  {
    MatchTheorems.TheBranch(Trades.CallOf(tx).value)
  }

  /** A fact says what the logs of its transaction move for the owner, and they move to the module
      what its own orders earn. */
  lemma FactMoves(c: Trades.Classification, block: Block, tx: Transaction, s: Setup, hash: MatchOrder -> Hash,
                  i: AssetIndex)
    requires tx.Valid() && Trades.Classifies(c, block, tx, s.owner, s.desk, hash) && c.Fact? && s.Separate()
    ensures Trades.FlowOf(c.fact, s.desk.venue, i) == OwnerNet(tx.logs, s, i)
    ensures ModuleNet(tx.logs, s, i) == ModuleTrade(tx, s, hash, i)
  {
    FactNamesItsPlace(c, block, tx, s, hash);
    Trades.ClassifiedMoves(c, block, tx, s.owner, s.desk, hash, i);
    FactIsSettled(c, block, tx, s, hash);
    SettledMoves(Trades.CallOf(tx).value, tx, s, hash, i);
  }

  lemma FactIsSettled(c: Trades.Classification, block: Block, tx: Transaction, s: Setup, hash: MatchOrder -> Hash)
    requires tx.Valid() && Trades.Classifies(c, block, tx, s.owner, s.desk, hash) && c.Fact?
    ensures IsMatch(tx) && CallSettlement.Settles(Trades.CallOf(tx).value, s.owner, s.desk.venue, hash)
    ensures SettlementLaws.Accepts(MatchIn(tx, s, hash), BranchIn(tx))
    ensures tx.logs == SettlementLaws.Outcome(MatchIn(tx, s, hash), BranchIn(tx)).logs
  {
    hide Trades.HasOwnerEvent, Trades.HasOwnerActivity, CallSettlement.Settles, SettlementLaws.Outcome, WordSpan;
    hide CallSettlement.MatchOf, CallSettlement.OwnerFills, Trades.IsFactOf, SettlementLaws.Accepts;
    FactNamesItsPlace(c, block, tx, s, hash);
    Trades.SettledIsAccepted(Trades.CallOf(tx).value, s.owner, s.desk.venue, hash);
  }

  lemma SettledMoves(call: MatchOrdersCall, tx: Transaction, s: Setup, hash: MatchOrder -> Hash, i: AssetIndex)
    requires call.Aligned() && IsMatch(tx) && Trades.CallOf(tx) == Some(call) && s.Separate()
    requires CallSettlement.Settles(call, s.owner, s.desk.venue, hash)
    requires SettlementLaws.Accepts(MatchIn(tx, s, hash), BranchIn(tx))
    requires tx.logs == SettlementLaws.Outcome(MatchIn(tx, s, hash), BranchIn(tx)).logs
    ensures ModuleNet(tx.logs, s, i) == ModuleTrade(tx, s, hash, i)
  {
    hide Net, SettlementLaws.Accepts, SettlementLaws.Outcome, CallSettlement.MatchOf, MatchTheorems.FillsNet;
    hide CallSettlement.OwnerFills, SettlementLaws.LegsNet, SettlementLaws.FillNet, MatchTheorems.TheBranch;
    hide Trades.CallOf;
    hide CallSettlement.Settles, SettlementLaws.Complementary, CallSettlement.CapsHold, MatchTheorems.MakesNoOrder;
    hide WordSpan;
    var m, branch := MatchIn(tx, s, hash), BranchIn(tx);
    MatchTheorems.SettledMeansAccepted(call, s.owner, s.desk.venue, hash);
    CallSettlement.OutcomeFits(m, branch);
    SettlementLaws.MatchBalances(m, branch, s.Module(), AssetOf(s, i));
    MatchTheorems.AllFillsNet(m, s.Module(), SettlementLaws.Outcome(m, branch), AssetOf(s, i));
  }

  /** The module makes no order of a call, and is not the fee receiver. */
  ghost predicate StandsAside(tx: Transaction, s: Setup, hash: MatchOrder -> Hash) {
    s.Module() != s.desk.venue.feeReceiver
    && (IsMatch(tx) ==> MatchTheorems.MakesNoOrder(MatchIn(tx, s, hash), s.Module()))
  }

  lemma AsideTradesNothing(tx: Transaction, s: Setup, hash: MatchOrder -> Hash, i: AssetIndex)
    requires StandsAside(tx, s, hash)
    ensures ModuleTrade(tx, s, hash, i) == 0
  {
    hide SettlementLaws.Accepts, SettlementLaws.Outcome, CallSettlement.MatchOf, WordSpan;
    if IsMatch(tx) {
      var m := MatchIn(tx, s, hash);
      MatchTheorems.NoOrderNoFills(m, |m.legs|, s.Module());
    }
  }

  // ----- where the facts of an interval come from

  /** The fact is the classification of the transaction that it names. */
  ghost predicate FactOf(fact: Trades.TradeFact, cs: seq<Trades.Classification>, block: Block) {
    && fact.blockNumber == block.number && fact.blockHash == block.hash
    && fact.transactionIndex < |cs| <= |block.transactions|
    && cs[fact.transactionIndex] == Trades.Fact(fact)
    && block.transactions[fact.transactionIndex].hash == fact.transactionHash
  }

  lemma FactNamesItsPlace(c: Trades.Classification, block: Block, tx: Transaction, s: Setup, hash: MatchOrder -> Hash)
    requires tx.Valid() && Trades.Classifies(c, block, tx, s.owner, s.desk, hash) && c.Fact?
    ensures c.fact.blockNumber == block.number && c.fact.blockHash == block.hash
    ensures c.fact.transactionIndex == tx.index && c.fact.transactionHash == tx.hash
    ensures tx.input.Some? && Trades.CallOf(tx).Some?
  {
    hide Trades.HasOwnerEvent, Trades.HasOwnerActivity, CallSettlement.Settles, SettlementLaws.Outcome;
    hide CallSettlement.MatchOf, CallSettlement.OwnerFills, Trades.IsBinding, CallSettlement.FillFees;
    hide CallSettlement.FlowsAre, WordSpan;
  }

  lemma NoneDistinct()
    ensures Distinct([])
  {
  }

  lemma DistinctConcat(a: seq<Trades.TradeFact>, b: seq<Trades.TradeFact>)
    requires Distinct(a) && Distinct(b)
    requires forall f, g :: f in a && g in b ==> KeyOf(f) != KeyOf(g)
    ensures Distinct(a + b)
  {
    forall i, j | 0 <= i < j < |a + b|
      ensures KeyOf((a + b)[i]) != KeyOf((a + b)[j])
    {
      if i < |a| <= j { assert a[i] in a && b[j - |a|] in b; }
    }
  }

  /** A block's facts name different transactions of the block. */
  lemma {:induction false} BlockFacts(cs: seq<Trades.Classification>, block: Block, s: Setup, hash: MatchOrder -> Hash)
    requires Trades.ValidTransactions(block) && BlockScanned(cs, block, s, hash) && Indexed(block)
    ensures Distinct(Trades.Collected(cs))
    ensures forall f :: f in Trades.Collected(cs) ==> FactOf(f, cs, block)
  {
    hide NativeScan.Passes, Trades.Classifies, Distinct, FactOf;
    if cs == [] {
      NoneDistinct();
    } else {
      var n := |cs| - 1;
      var front := Trades.Collected(cs[..n]);
      BlockFacts(cs[..n], block, s, hash);
      forall f | f in front
        ensures FactOf(f, cs, block) && f.transactionIndex < n
      {
        FactStays(f, cs, block);
      }
      if cs[n].Fact? {
        NativeScan.PassedFactIsClassified(cs[n], block, block.transactions[n], s.owner, s.desk, true, hash);
        FactNamesItsPlace(cs[n], block, block.transactions[n], s, hash);
        LastFact(cs, block);
        DistinctConcat(front, [cs[n].fact]);
      } else {
        assert Trades.Collected(cs) == front;
      }
    }
  }

  lemma FactStays(fact: Trades.TradeFact, cs: seq<Trades.Classification>, block: Block)
    requires cs != [] && |cs| <= |block.transactions| && FactOf(fact, cs[..|cs| - 1], block)
    ensures FactOf(fact, cs, block) && fact.transactionIndex < |cs| - 1
  {
  }

  lemma LastFact(cs: seq<Trades.Classification>, block: Block)
    requires 0 < |cs| <= |block.transactions| && cs[|cs| - 1].Fact?
    requires var tx, fact := block.transactions[|cs| - 1], cs[|cs| - 1].fact;
      fact.blockNumber == block.number && fact.blockHash == block.hash
      && fact.transactionIndex == |cs| - 1 && fact.transactionHash == tx.hash
    ensures FactOf(cs[|cs| - 1].fact, cs, block) && Distinct([cs[|cs| - 1].fact])
  {
  }

  ghost predicate FromSomeBlock(fact: Trades.TradeFact, css: seq<seq<Trades.Classification>>, blocks: seq<Block>) {
    exists k :: 0 <= k < |css| <= |blocks| && FactOf(fact, css[k], blocks[k])
  }

  lemma {:induction false} IntervalFacts(css: seq<seq<Trades.Classification>>, blocks: seq<Block>, s: Setup,
                                         hash: MatchOrder -> Hash)
    requires Trades.ValidBlocks(blocks) && InOrder(blocks)
    requires Scanned(css, blocks, s, hash)
    ensures Distinct(Trades.CollectedAll(css))
    ensures forall f :: f in Trades.CollectedAll(css) ==> FromSomeBlock(f, css, blocks)
  {
    hide NativeScan.Scanned, Trades.Collected, Indexed, Distinct, FactOf;
    if css == [] {
      NoneDistinct();
    } else {
      var n := |css| - 1;
      var before, here := Trades.CollectedAll(css[..n]), Trades.Collected(css[n]);
      IntervalFacts(css[..n], blocks, s, hash);
      BlockFacts(css[n], blocks[n], s, hash);
      forall f | f in before
        ensures FromSomeBlock(f, css, blocks) && f.blockNumber < blocks[n].number
      {
        var k :| 0 <= k < n && FactOf(f, css[..n][k], blocks[k]);
        FactOfItsBlock(f, css[k], blocks[k]);
        assert FactOf(f, css[k], blocks[k]);
      }
      forall f | f in here
        ensures FromSomeBlock(f, css, blocks) && f.blockNumber == blocks[n].number
      {
        FactOfItsBlock(f, css[n], blocks[n]);
      }
      DistinctConcat(before, here);
    }
  }

  lemma FactOfItsBlock(fact: Trades.TradeFact, cs: seq<Trades.Classification>, block: Block)
    requires FactOf(fact, cs, block)
    ensures fact.blockNumber == block.number
  {
  }

  lemma {:induction false} BlockIsFound(blocks: seq<Block>, k: nat)
    requires k < |blocks| && forall j :: 0 <= j < k ==> blocks[j].number != blocks[k].number
    ensures FindBlock(blocks, blocks[k].number) == Some(blocks[k])
  {
    if k > 0 {
      BlockIsFound(blocks[1..], k - 1);
    }
  }

  /** The module replay registers every fact of the scan. */
  lemma TradeFactsRegister(css: seq<seq<Trades.Classification>>, blocks: seq<Block>, s: Setup,
                           hash: MatchOrder -> Hash)
    requires Trades.ValidBlocks(blocks) && InOrder(blocks) && Scanned(css, blocks, s, hash)
    ensures Registrable(Trades.CollectedAll(css), blocks)
  {
    hide Scanned, Trades.CollectedAll, Distinct;
    IntervalFacts(css, blocks, s, hash);
    forall f | f in Trades.CollectedAll(css)
      ensures Located(f, blocks)
    {
      var k :| 0 <= k < |css| && FactOf(f, css[k], blocks[k]);
      BlockIsFound(blocks, k);
      assert Indexed(blocks[k]);
    }
  }

  /** The transaction that a fact names. */
  ghost function TransactionOf(fact: Trades.TradeFact, blocks: seq<Block>): Transaction
    requires Located(fact, blocks)
  {
    FindBlock(blocks, fact.blockNumber).value.transactions[fact.transactionIndex]
  }

  /** What the transaction of a fact moves to the module. */
  ghost function KeptByModule(blocks: seq<Block>, s: Setup, hash: MatchOrder -> Hash, i: AssetIndex): Worth {
    f => if Located(f, blocks) then ModuleTrade(TransactionOf(f, blocks), s, hash, i) else 0
  }

  /** Each of those facts says what its transaction's logs move for the owner, and they move to the
      module only what its own orders earn. */
  lemma TradeFactsAreFaithful(css: seq<seq<Trades.Classification>>, blocks: seq<Block>, s: Setup,
                              hash: MatchOrder -> Hash, i: AssetIndex)
    requires Trades.ValidBlocks(blocks) && InOrder(blocks) && Scanned(css, blocks, s, hash) && s.Separate()
    ensures AllFaithful(Trades.CollectedAll(css), blocks, s, i, KeptByModule(blocks, s, hash, i))
  {
    hide Scanned, Trades.CollectedAll, Distinct, Faithful, KeptByModule;
    forall k, t | 0 <= k < |blocks| && 0 <= t < |blocks[k].transactions|
      ensures Faithful(Trades.CollectedAll(css), blocks[k], blocks[k].transactions[t], s, i,
                       KeptByModule(blocks, s, hash, i))
    {
      FaithfulAt(css, blocks, s, hash, i, k, t);
    }
  }

  lemma FaithfulAt(css: seq<seq<Trades.Classification>>, blocks: seq<Block>, s: Setup, hash: MatchOrder -> Hash,
                   i: AssetIndex, k: nat, t: nat)
    requires Trades.ValidBlocks(blocks) && InOrder(blocks) && Scanned(css, blocks, s, hash) && s.Separate()
    requires k < |blocks| && t < |blocks[k].transactions|
    ensures Faithful(Trades.CollectedAll(css), blocks[k], blocks[k].transactions[t], s, i,
                     KeptByModule(blocks, s, hash, i))
  {
    hide NativeScan.Passes, Trades.Classifies, Trades.CollectedAll, Distinct, Trades.FlowOf, OwnerNet, ModuleNet;
    hide ModuleTrade, FindBlock;
    IntervalFacts(css, blocks, s, hash);
    TradeFactsRegister(css, blocks, s, hash);
    var block, tx := blocks[k], blocks[k].transactions[t];
    forall f | f in Trades.CollectedAll(css) && KeyOf(f) == (block.number, tx.index)
      ensures Trades.FlowOf(f, s.desk.venue, i) == OwnerNet(tx.logs, s, i)
      ensures KeptByModule(blocks, s, hash, i)(f) == ModuleNet(tx.logs, s, i)
    {
      var p :| 0 <= p < |css| && FactOf(f, css[p], blocks[p]);
      assert p == k && Indexed(block);
      BlockIsFound(blocks, k);
      assert BlockScanned(css[k], block, s, hash);
      NativeScan.PassedFactIsClassified(css[k][t], block, tx, s.owner, s.desk, true, hash);
      FactMoves(css[k][t], block, tx, s, hash, i);
    }
  }

  // ----- the two replays together

  /** At every boundary that the module replay passes over the facts of the scan, the owner's
      authenticated balances are the opening ones plus the net of all receipt logs so far. The
      module's are the net of all logs but for what its own orders earned in the trades; so they are
      that net exactly when those orders come to nothing. */
  lemma BoundariesAreLogs(css: seq<seq<Trades.Classification>>, blocks: seq<Block>, points: seq<Point>, s: Setup,
                          hash: MatchOrder -> Hash, k: nat, i: AssetIndex)
    requires k <= |blocks| == |points| == |css| && Trades.ValidBlocks(blocks) && InOrder(blocks)
    requires Scanned(css, blocks, s, hash) && s.Separate()
    requires Through(Start(s, Trades.CollectedAll(css)), blocks, points, s, k).Going?
    ensures var facts := Trades.CollectedAll(css);
      var state := Through(Start(s, facts), blocks, points, s, k).state;
      var earned := MetNet(facts, state.remaining.Keys, KeptByModule(blocks, s, hash, i));
      && Inventory.Get(state.owner, i) == Inventory.Get(s.opening, i) + OwnerNet(BlocksLogs(blocks, k), s, i)
      && Inventory.Get(state.module_, i) == ModuleNet(BlocksLogs(blocks, k), s, i) - earned
      && (k > 0 ==> Authenticated(state, blocks[k - 1], points[k - 1]))
  {
    hide Through, Scanned, Trades.CollectedAll, AllFaithful, Distinct, OwnerNet, ModuleNet, Inventory.Get, MetNet;
    hide Located, InOrder, KeptByModule, Authenticated;
    TradeFactsRegister(css, blocks, s, hash);
    TradeFactsAreFaithful(css, blocks, s, hash, i);
    BoundariesMatchLogs(blocks, points, s, Trades.CollectedAll(css), k, i, KeptByModule(blocks, s, hash, i));
  }

  ghost predicate AllAside(blocks: seq<Block>, s: Setup, hash: MatchOrder -> Hash) {
    forall k, t :: 0 <= k < |blocks| && 0 <= t < |blocks[k].transactions| ==>
      StandsAside(blocks[k].transactions[t], s, hash)
  }

  /** A module that makes no order and receives no fee earns nothing in the trades. */
  lemma {:induction false} AsideEarnsNothing(facts: seq<Trades.TradeFact>, left: set<TradeKey>, blocks: seq<Block>,
                                             s: Setup, hash: MatchOrder -> Hash, i: AssetIndex)
    requires AllAside(blocks, s, hash)
    ensures MetNet(facts, left, KeptByModule(blocks, s, hash, i)) == 0
  {
    hide ModuleTrade, StandsAside;
    if facts != [] {
      var last := facts[|facts| - 1];
      AsideEarnsNothing(facts[..|facts| - 1], left, blocks, s, hash, i);
      if Located(last, blocks) {
        var block := FindBlock(blocks, last.blockNumber).value;
        var k :| 0 <= k < |blocks| && blocks[k] == block;
        AsideTradesNothing(blocks[k].transactions[last.transactionIndex], s, hash, i);
      }
    }
  }

  /** When both replays match, the last authenticated balance is opening, the fills of every trade
      fact and every operation, each counted once. */
  lemma BothExplain(css: seq<seq<Trades.Classification>>, blocks: seq<Block>, points: seq<Point>, s: Setup,
                    hash: MatchOrder -> Hash, through: U64, i: AssetIndex)
    requires 0 < |blocks| == |points| == |css| && Trades.ValidBlocks(blocks) && InOrder(blocks)
    requires Scanned(css, blocks, s, hash) && s.IdA() != s.IdB()
    requires Interval(blocks, points, s, Trades.CollectedAll(css), through).Matched?
    ensures Inventory.Get(blocks[|blocks| - 1].authenticated, i) == Inventory.Get(s.opening, i)
      + AllFillsNet(Trades.CollectedAll(css), s, i)
      + OperationsNet(Interval(blocks, points, s, Trades.CollectedAll(css), through).operations, i)
    ensures points[|blocks| - 1].module_ == NOTHING
  {
    hide Trades.CollectedAll, Distinct, Registrable, Interval, OperationsNet, Inventory.Get, NativeScan.AllScanned;
    hide Trades.AllExplained, AllFillsNet, InOrder;
    TradeFactsRegister(css, blocks, s, hash);
    MatchedIsExplained(blocks, points, s, Trades.CollectedAll(css), through, i);
    NativeScan.ScannedFactsAreFills(css, blocks, s.owner, s.desk, true, hash);
    TradesAreFills(Trades.CollectedAll(css), s, i);
  }

  /** What the fills of all facts are worth to the owner. */
  ghost function AllFillsNet(facts: seq<Trades.TradeFact>, s: Setup, i: AssetIndex): int {
    if facts == [] then
      0
    else
      AllFillsNet(facts[..|facts| - 1], s, i)
      + MatchTheorems.FillsNet(facts[|facts| - 1].fills, s.owner, AssetOf(s, i))
  }

  lemma {:induction false} TradesAreFills(facts: seq<Trades.TradeFact>, s: Setup, i: AssetIndex)
    requires Trades.AllExplained(facts, s.owner, s.desk.venue)
    ensures TradesNet(facts, s, i) == AllFillsNet(facts, s, i)
  {
    hide Trades.FlowOf, MatchTheorems.FillsNet, CallSettlement.FillFees;
    if facts != [] {
      TradesAreFills(facts[..|facts| - 1], s, i);
      assert facts[|facts| - 1] in facts;
    }
  }
}
