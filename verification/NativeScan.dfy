/** Scans an interval for the owner's trades where direct module operations may stand among them:
    transactions sent to the module or to a token contract are left to the module replay. */
module NativeScan {
  import opened Words
  import opened Ledger
  import opened MatchCall
  import opened Receipts
  import opened Trades
  import CallSettlement
  import SettlementLaws

  /** The reason of a classification, or an event that changes the rules of the Exchange. */
  datatype Refusal = OfTrade(reason: Reason) | ControlTransition

  datatype Failure = Failure(blockNumber: U64, transactionHash: Hash, refusal: Refusal)

  predicate HasControlEvent(logs: seq<Log>, desk: Desk) {
    exists log :: log in logs && log.Noted? && log.event.Emitted? && log.event.topic == ControlChange
                  && IsRelevantEmitter(log.event.emitter, desk)
  }

  predicate IsRelevantEmitter(emitter: Address, desk: Desk) {
    emitter == desk.venue.exchange || emitter == desk.venue.module_
    || emitter == desk.positionManager || emitter == desk.pusd
  }

  predicate IsOperationTarget(tx: Transaction, desk: Desk) {
    tx.to == Some(desk.venue.module_) || tx.to == Some(desk.positionManager) || tx.to == Some(desk.pusd)
  }

  /** Left to the module replay, when the scan allows operations. */
  predicate IsSkipped(tx: Transaction, desk: Desk, operations: bool) { operations && IsOperationTarget(tx, desk) }

  predicate IsOtherExchangeCall(tx: Transaction, desk: Desk) {
    tx.to == Some(desk.venue.exchange) && !IsMatchOrders(tx)
  }

  /** The scan passes over a transaction with this classification. */
  ghost predicate Passes(c: Classification, block: Block, tx: Transaction, owner: Address, desk: Desk, operations: bool,
                         hash: MatchOrder -> Hash)
    requires tx.Valid()
  {
    && !HasControlEvent(tx.logs, desk)
    && if IsSkipped(tx, desk, operations) then c == Quiet
       else !IsOtherExchangeCall(tx, desk) && Classifies(c, block, tx, owner, desk, hash) && !c.Unavailable?
  }

  /** The scan stops at a transaction, for this reason. */
  ghost predicate Stops(refusal: Refusal, block: Block, tx: Transaction, owner: Address, desk: Desk, operations: bool,
                        hash: MatchOrder -> Hash)
    requires tx.Valid()
  {
    if HasControlEvent(tx.logs, desk) then
      refusal == ControlTransition
    else if IsSkipped(tx, desk, operations) then
      false
    else if IsOtherExchangeCall(tx, desk) then
      refusal == OfTrade(UnsupportedDirectCall)
    else
      refusal.OfTrade? && Classifies(Unavailable(refusal.reason), block, tx, owner, desk, hash)
  }

  /** A transaction is passed or stopped at, never both, and stopped at for one reason. */
  lemma PassesOrStops(c: Classification, refusal: Refusal, other: Refusal, block: Block, tx: Transaction,
                      owner: Address, desk: Desk, operations: bool, hash: MatchOrder -> Hash)
    requires tx.Valid() && Stops(refusal, block, tx, owner, desk, operations, hash)
    ensures !Passes(c, block, tx, owner, desk, operations, hash)
    ensures Stops(other, block, tx, owner, desk, operations, hash) ==> other == refusal
  {
    hide HasControlEvent, IsSkipped, IsOtherExchangeCall, HasOwnerActivity, HasOwnerEvent, CallOf, WordSpan;
    hide CallSettlement.Settles, SettlementLaws.Outcome, CallSettlement.MatchOf, CallSettlement.OwnerFills, IsFactOf;
  }

  /** Only a successful match gives a fact, and a successful match that passes has been decoded and
      has a sender; so the scan's own tests of these things, after the classification, never refuse. */
  lemma LaterTestsNeverRefuse(c: Classification, block: Block, tx: Transaction, owner: Address, desk: Desk,
                              operations: bool, hash: MatchOrder -> Hash)
    requires tx.Valid() && Passes(c, block, tx, owner, desk, operations, hash)
    ensures var isMatch := tx.succeeded && tx.to == Some(desk.venue.exchange) && IsMatchOrders(tx);
      && (c.Fact? ==> isMatch)
      && (isMatch && !IsSkipped(tx, desk, operations) ==> CallOf(tx).Some? && tx.recoveredFrom.Some?)
  {
    hide HasControlEvent, HasOwnerActivity, HasOwnerEvent, CallOf, WordSpan;
    hide CallSettlement.Settles, SettlementLaws.Outcome, CallSettlement.MatchOf, CallSettlement.OwnerFills, IsFactOf;
  }

  method ScanTransaction(block: Block, tx: Transaction, owner: Address, desk: Desk, operations: bool,
                         hash: MatchOrder -> Hash)
    returns (c: Classification, refusal: Option<Refusal>)
    requires tx.Valid() && desk.venue.idA != desk.venue.idB
    ensures refusal.None? ==> Passes(c, block, tx, owner, desk, operations, hash)
    ensures refusal.Some? ==> Stops(refusal.value, block, tx, owner, desk, operations, hash)
  {
    hide HasControlEvent, IsSkipped, IsOtherExchangeCall, Classifies;
    c, refusal := Quiet, None;
    if HasControlEvent(tx.logs, desk) { return c, Some(ControlTransition); }
    if IsSkipped(tx, desk, operations) { return; }
    if IsOtherExchangeCall(tx, desk) { return c, Some(OfTrade(UnsupportedDirectCall)); }
    c := ClassifyTransaction(block, tx, owner, desk, hash);
    if c.Unavailable? { refusal := Some(OfTrade(c.reason)); }
  }

  // ----- the interval

  /** The first classifications of a block, all of them passed. */
  ghost predicate Scanned(cs: seq<Classification>, block: Block, owner: Address, desk: Desk, operations: bool,
                          hash: MatchOrder -> Hash)
    requires ValidTransactions(block)
  {
    && |cs| <= |block.transactions|
    && forall t :: 0 <= t < |cs| ==> Passes(cs[t], block, block.transactions[t], owner, desk, operations, hash)
  }

  /** Every transaction of the first blocks is passed. */
  ghost predicate AllScanned(css: seq<seq<Classification>>, blocks: seq<Block>, owner: Address, desk: Desk,
                             operations: bool, hash: MatchOrder -> Hash)
    requires ValidBlocks(blocks)
  {
    && |css| <= |blocks|
    && forall k :: 0 <= k < |css| ==>
         |css[k]| == |blocks[k].transactions| && Scanned(css[k], blocks[k], owner, desk, operations, hash)
  }

  /** The failure of a block names its first transaction that is not passed. */
  ghost predicate StoppedAt(cs: seq<Classification>, failure: Failure, block: Block, owner: Address, desk: Desk,
                            operations: bool, hash: MatchOrder -> Hash)
    requires ValidTransactions(block)
  {
    && Scanned(cs, block, owner, desk, operations, hash) && |cs| < |block.transactions|
    && failure.blockNumber == block.number && failure.transactionHash == block.transactions[|cs|].hash
    && Stops(failure.refusal, block, block.transactions[|cs|], owner, desk, operations, hash)
  }

  method ScanBlock(block: Block, owner: Address, desk: Desk, operations: bool, hash: MatchOrder -> Hash)
    returns (facts: seq<TradeFact>, failure: Option<Failure>, ghost cs: seq<Classification>)
    requires ValidTransactions(block) && desk.venue.idA != desk.venue.idB
    ensures failure.None? ==>
      |cs| == |block.transactions| && Scanned(cs, block, owner, desk, operations, hash) && facts == Collected(cs)
    ensures failure.Some? ==> StoppedAt(cs, failure.value, block, owner, desk, operations, hash)
  {
    hide Passes, Stops, Scanned, Collected;
    facts, failure, cs := [], None, [];
    NothingScanned(block, owner, desk, operations, hash);
    for t := 0 to |block.transactions|
      invariant |cs| == t && Scanned(cs, block, owner, desk, operations, hash)
      invariant facts == Collected(cs)
    {
      var tx := block.transactions[t];
      var c, refusal := ScanTransaction(block, tx, owner, desk, operations, hash);
      if refusal.Some? {
        failure := Some(Failure(block.number, tx.hash, refusal.value));
        return;
      }
      ScannedOneMore(cs, c, block, owner, desk, operations, hash);
      if c.Fact? { facts := facts + [c.fact]; }
      cs := cs + [c];
    }
  }

  lemma NothingScanned(block: Block, owner: Address, desk: Desk, operations: bool, hash: MatchOrder -> Hash)
    requires ValidTransactions(block)
    ensures Scanned([], block, owner, desk, operations, hash) && Collected([]) == []
  {
    hide Passes;
  }

  lemma ScannedOneMore(cs: seq<Classification>, c: Classification, block: Block, owner: Address, desk: Desk,
                       operations: bool, hash: MatchOrder -> Hash)
    requires ValidTransactions(block) && Scanned(cs, block, owner, desk, operations, hash)
    requires |cs| < |block.transactions|
    requires Passes(c, block, block.transactions[|cs|], owner, desk, operations, hash)
    ensures Scanned(cs + [c], block, owner, desk, operations, hash)
    ensures Collected(cs + [c]) == Collected(cs) + if c.Fact? then [c.fact] else []
  {
    hide Passes, Collected, Transaction.Valid;
    forall t | 0 <= t <= |cs|
      ensures block.transactions[t].Valid()
      ensures Passes((cs + [c])[t], block, block.transactions[t], owner, desk, operations, hash)
    {
      assert block.transactions[t].Valid();
      assert t < |cs| ==> (cs + [c])[t] == cs[t];
    }
    CollectedOneMore(cs, c);
  }

  lemma CollectedOneMore(cs: seq<Classification>, c: Classification)
    ensures Collected(cs + [c]) == Collected(cs) + if c.Fact? then [c.fact] else []
  {
    assert (cs + [c])[..|cs|] == cs;
  }

  /** Collects the facts of all blocks, or names the first transaction that is not passed. */
  method ScanInterval(blocks: seq<Block>, owner: Address, desk: Desk, operations: bool, hash: MatchOrder -> Hash)
    returns (facts: seq<TradeFact>, failure: Option<Failure>, ghost css: seq<seq<Classification>>)
    requires ValidBlocks(blocks) && desk.venue.idA != desk.venue.idB
    ensures failure.None? ==> |css| == |blocks| && facts == CollectedAll(css)
    ensures AllScanned(css, blocks, owner, desk, operations, hash)
    ensures failure.Some? ==> facts == [] && |css| < |blocks|
    ensures failure.Some? ==> exists cs :: StoppedAt(cs, failure.value, blocks[|css|], owner, desk, operations, hash)
  {
    hide Scanned, AllScanned, StoppedAt, Collected, CollectedAll;
    facts, failure, css := [], None, [];
    NoBlockScanned(blocks, owner, desk, operations, hash);
    for k := 0 to |blocks|
      invariant |css| == k && AllScanned(css, blocks, owner, desk, operations, hash)
      invariant facts == CollectedAll(css) && failure.None?
    {
      ghost var cs;
      var more;
      more, failure, cs := ScanBlock(blocks[k], owner, desk, operations, hash);
      if failure.Some? {
        facts := [];
        return;
      }
      BlockScannedMore(css, cs, blocks, owner, desk, operations, hash);
      facts, css := facts + more, css + [cs];
    }
  }

  lemma NoBlockScanned(blocks: seq<Block>, owner: Address, desk: Desk, operations: bool, hash: MatchOrder -> Hash)
    requires ValidBlocks(blocks)
    ensures AllScanned([], blocks, owner, desk, operations, hash) && CollectedAll([]) == []
  {
    hide Scanned;
  }

  lemma BlockScannedMore(css: seq<seq<Classification>>, cs: seq<Classification>, blocks: seq<Block>, owner: Address,
                         desk: Desk, operations: bool, hash: MatchOrder -> Hash)
    requires ValidBlocks(blocks) && AllScanned(css, blocks, owner, desk, operations, hash) && |css| < |blocks|
    requires |cs| == |blocks[|css|].transactions| && Scanned(cs, blocks[|css|], owner, desk, operations, hash)
    ensures AllScanned(css + [cs], blocks, owner, desk, operations, hash)
    ensures CollectedAll(css + [cs]) == CollectedAll(css) + Collected(cs)
  {
    hide Scanned, Collected, ValidTransactions;
    assert (css + [cs])[..|css|] == css;
  }

  // ----- what the facts of a scan say

  /** Without operations the scan passes what the trade classification clears, but for control
      events and other calls of the Exchange. */
  lemma ScannedIsCleared(cs: seq<Classification>, block: Block, owner: Address, desk: Desk, hash: MatchOrder -> Hash)
    requires ValidTransactions(block)
    ensures Scanned(cs, block, owner, desk, false, hash) <==>
      Cleared(cs, block, owner, desk, hash)
      && forall t :: 0 <= t < |cs| ==> IsOrdinary(block.transactions[t], desk)
  {
    hide HasControlEvent, IsOtherExchangeCall, Classifies;
    if Scanned(cs, block, owner, desk, false, hash) {
      forall t | 0 <= t < |cs|
        ensures Classifies(cs[t], block, block.transactions[t], owner, desk, hash) && !cs[t].Unavailable?
        ensures IsOrdinary(block.transactions[t], desk)
      {
        assert Passes(cs[t], block, block.transactions[t], owner, desk, false, hash);
      }
    }
  }

  predicate IsOrdinary(tx: Transaction, desk: Desk) {
    !HasControlEvent(tx.logs, desk) && !IsOtherExchangeCall(tx, desk)
  }

  lemma PassedFactIsClassified(c: Classification, block: Block, tx: Transaction, owner: Address, desk: Desk,
                               operations: bool, hash: MatchOrder -> Hash)
    requires tx.Valid() && Passes(c, block, tx, owner, desk, operations, hash) && c.Fact?
    ensures Classifies(c, block, tx, owner, desk, hash)
  {
    hide HasControlEvent, IsOtherExchangeCall, Classifies;
  }

  lemma {:induction false} BlockIsExplained(cs: seq<Classification>, block: Block, owner: Address, desk: Desk,
                                            operations: bool, hash: MatchOrder -> Hash)
    requires ValidTransactions(block) && Scanned(cs, block, owner, desk, operations, hash)
    requires desk.venue.idA != desk.venue.idB
    ensures AllExplained(Collected(cs), owner, desk.venue)
  {
    hide Passes, Classifies, FillsExplain;
    if cs != [] {
      var last, tx := cs[|cs| - 1], block.transactions[|cs| - 1];
      BlockIsExplained(cs[..|cs| - 1], block, owner, desk, operations, hash);
      if last.Fact? {
        PassedFactIsClassified(last, block, tx, owner, desk, operations, hash);
        FactIsFills(last, block, tx, owner, desk, hash);
      }
    }
  }

  /** Every fact of a scan says in its fills exactly what its flows move. */
  lemma {:induction false} ScannedFactsAreFills(css: seq<seq<Classification>>, blocks: seq<Block>, owner: Address,
                                                desk: Desk, operations: bool, hash: MatchOrder -> Hash)
    requires ValidBlocks(blocks) && AllScanned(css, blocks, owner, desk, operations, hash)
    requires desk.venue.idA != desk.venue.idB
    ensures AllExplained(CollectedAll(css), owner, desk.venue)
  {
    hide Scanned, FillsExplain, Collected, ValidTransactions;
    if css != [] {
      var n := |css| - 1;
      ScannedFactsAreFills(css[..n], blocks, owner, desk, operations, hash);
      BlockIsExplained(css[n], blocks[n], owner, desk, operations, hash);
    }
  }
}
