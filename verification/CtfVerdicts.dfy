/** What the two verdicts of a classification promise over the whole run. */
module CtfVerdicts {
  import opened Words
  import opened Ledger
  import opened Receipts
  import opened CtfCondition
  import opened CtfOperations
  import opened CtfClassification
  import C = CtfCalls
  import Inventory

  // ----- how the verdicts are linked

  ghost predicate NoneUnavailable(facts: seq<Fact>) { forall f :: f in facts ==> !f.status.Unavailable? }

  ghost predicate Linked(state: State, r: Report) {
    && (state.complete ==> state.consistent && r.inventoryMatched && !r.upgrade && NoneUnavailable(state.facts))
  }

  lemma DecisionIsLinked(scan: Scan, tx: Transaction, r: Report, checked: Option<Match>)
    ensures var d := Decide(scan, tx, r, checked);
      && (d.status.Unavailable? ==> d.incomplete || r.upgrade) && (d.skipped ==> d.incomplete)
  {
    hide HasLifecycle, HasOperationEvent, HasReference, SentByOwner, FirstPreparation, C.DecodeCall, WordSpan;
  }

  lemma VisitKeepsLinked(state: State, seen: Seen, block: Block, tx: Transaction, endpoint: Proof, r: Report)
    requires Linked(state, r)
    ensures Linked(Visit(state, seen, block, tx, endpoint, r).0, r)
    ensures Visit(state, seen, block, tx, endpoint, r).0.complete ==> state.complete
    ensures Visit(state, seen, block, tx, endpoint, r).0.consistent ==> state.consistent
  {
    hide ScanLogs, Decide, CheckedFor, Inventory.Replay, WordSpan;
    var scan := ScanLogs(StartScan(state, seen), tx, endpoint, r, |tx.logs|);
    DecisionIsLinked(scan, tx, r, CheckedFor(state, scan, tx, r));
  }

  lemma {:induction false} VisitAllKeepsLinked(state: State, block: Block, endpoint: Proof, r: Report, n: nat)
    requires n <= |block.transactions| && Linked(state, r)
    ensures Linked(VisitAll(state, block, endpoint, r, n).0, r)
    ensures VisitAll(state, block, endpoint, r, n).0.complete ==> state.complete
    ensures VisitAll(state, block, endpoint, r, n).0.consistent ==> state.consistent
  {
    hide Visit, Linked;
    if n > 0 {
      var before := VisitAll(state, block, endpoint, r, n - 1);
      VisitAllKeepsLinked(state, block, endpoint, r, n - 1);
      VisitKeepsLinked(before.0, before.1, block, block.transactions[n - 1], endpoint, r);
    }
  }

  /** Completeness implies consistency, and then no transaction is unavailable; a consistent report
      has replayed to the authenticated balances at every boundary so far. */
  lemma {:induction false} VerdictsAreLinked(r: Report, k: nat)
    requires r.Valid() && k <= |r.blocks|
    ensures Linked(Through(r, k), r)
    ensures Through(r, k).consistent ==>
      forall j :: 0 < j <= k ==> Through(r, j).balances == r.blocks[j - 1].authenticated
    ensures k > 0 ==> (Through(r, k).complete ==> Through(r, k - 1).complete)
  {
    hide VisitAll;
    if k > 0 {
      VerdictsAreLinked(r, k - 1);
      VisitAllKeepsLinked(Through(r, k - 1), r.blocks[k - 1], r.proofs[k], r, |r.blocks[k - 1].transactions|);
    }
  }

  // ----- a complete report explains the balances

  /** The logs of the transactions that succeeded, among the first n. */
  ghost function SucceededLogs(txs: seq<Transaction>, n: nat): seq<Log>
    requires n <= |txs|
  {
    if n == 0 then []
    else SucceededLogs(txs, n - 1) + if txs[n - 1].succeeded then txs[n - 1].logs else []
  }

  ghost function SucceededInBlocks(blocks: seq<Block>, n: nat): seq<Log>
    requires n <= |blocks|
  {
    if n == 0 then []
    else SucceededInBlocks(blocks, n - 1) + SucceededLogs(blocks[n - 1].transactions, |blocks[n - 1].transactions|)
  }

  ghost function OwnerNet(logs: seq<Log>, r: Report, j: Inventory.AssetIndex): int {
    Net(logs, r.scope.owner, AssetOf(r.scope, j))
  }

  lemma OwnerNetLaws(r: Report, j: Inventory.AssetIndex)
    ensures OwnerNet([], r, j) == 0
    ensures forall a: seq<Log>, b: seq<Log> {:trigger OwnerNet(a + b, r, j)} ::
              OwnerNet(a + b, r, j) == OwnerNet(a, r, j) + OwnerNet(b, r, j)
  {
    hide Net;
    NetLaws(r.scope.owner, AssetOf(r.scope, j));
  }

  lemma VisitMoves(state: State, seen: Seen, block: Block, tx: Transaction, endpoint: Proof, r: Report,
                   j: Inventory.AssetIndex)
    requires r.scope.ids.first != r.scope.ids.second && Visit(state, seen, block, tx, endpoint, r).0.complete
    ensures Inventory.Get(Visit(state, seen, block, tx, endpoint, r).0.balances, j)
      == Inventory.Get(state.balances, j) + OwnerNet(if tx.succeeded then tx.logs else [], r, j)
  {
    hide ScanLogs, Decide, CheckedFor, Inventory.Replay, Inventory.Get, Net, WordSpan;
    OwnerNetLaws(r, j);
    if tx.succeeded {
      var scan := ScanLogs(StartScan(state, seen), tx, endpoint, r, |tx.logs|);
      DecisionIsLinked(scan, tx, r, CheckedFor(state, scan, tx, r));
      Inventory.ReplayNet(state.balances, ReplayScope(r.scope), tx.logs, j);
    }
  }

  lemma {:induction false} VisitAllMoves(state: State, block: Block, endpoint: Proof, r: Report, n: nat,
                                         j: Inventory.AssetIndex)
    requires n <= |block.transactions| && r.scope.ids.first != r.scope.ids.second && Linked(state, r)
    requires VisitAll(state, block, endpoint, r, n).0.complete
    ensures Inventory.Get(VisitAll(state, block, endpoint, r, n).0.balances, j)
      == Inventory.Get(state.balances, j) + OwnerNet(SucceededLogs(block.transactions, n), r, j)
  {
    hide Visit, Linked, OwnerNet, Inventory.Get;
    OwnerNetLaws(r, j);
    if n > 0 {
      var before := VisitAll(state, block, endpoint, r, n - 1);
      VisitAllKeepsLinked(state, block, endpoint, r, n - 1);
      VisitKeepsLinked(before.0, before.1, block, block.transactions[n - 1], endpoint, r);
      VisitAllMoves(state, block, endpoint, r, n - 1, j);
      VisitMoves(before.0, before.1, block, block.transactions[n - 1], endpoint, r, j);
    }
  }

  /** In a complete report every authenticated balance is the opening one plus the net of the
      logs of all successful transactions so far. */
  lemma {:induction false} CompleteExplainsBalances(r: Report, k: nat, j: Inventory.AssetIndex)
    requires r.Valid() && k <= |r.blocks| && r.scope.ids.first != r.scope.ids.second && Through(r, k).complete
    ensures Inventory.Get(Through(r, k).balances, j)
      == Inventory.Get(r.opening, j) + OwnerNet(SucceededInBlocks(r.blocks, k), r, j)
    ensures k > 0 ==> Through(r, k).balances == r.blocks[k - 1].authenticated
  {
    hide VisitAll, Linked, OwnerNet, Inventory.Get, SucceededLogs;
    OwnerNetLaws(r, j);
    if k > 0 {
      VerdictsAreLinked(r, k - 1);
      var block := r.blocks[k - 1];
      VisitAllKeepsLinked(Through(r, k - 1), block, r.proofs[k], r, |block.transactions|);
      CompleteExplainsBalances(r, k - 1, j);
      VisitAllMoves(Through(r, k - 1), block, r.proofs[k], r, |block.transactions|, j);
    }
  }

  // ----- one resolution, one preparation

  ghost function CountKind(facts: seq<Fact>, kind: Kind): nat {
    if facts == [] then 0
    else CountKind(facts[..|facts| - 1], kind) + if facts[|facts| - 1].kind == Some(kind) then 1 else 0
  }

  lemma CountMore(facts: seq<Fact>, fact: Fact, kind: Kind)
    ensures CountKind(facts + [fact], kind) == CountKind(facts, kind) + if fact.kind == Some(kind) then 1 else 0
  {
    assert (facts + [fact])[..|facts|] == facts;
  }

  /** A scan never forgets a preparation or a payout; it resolves only what had no payout, and
      prepares only what ends the block prepared. */
  lemma {:induction false} ScanProgress(start: Scan, tx: Transaction, endpoint: Proof, r: Report, n: nat)
    requires n <= |tx.logs|
    ensures var scan := ScanLogs(start, tx, endpoint, r, n);
      && (start.prepared ==> scan.prepared) && (start.payout.Some? ==> scan.payout.Some?)
      && (scan.resolved ==> start.resolved || (start.payout.None? && scan.payout.Some?))
      && (scan.prepared ==> start.prepared || Prepared(endpoint.status))
  {
    hide PreparationFits, ResolutionCallFits, C.DecodeCall, WordSpan;
    if n > 0 {
      ScanProgress(start, tx, endpoint, r, n - 1);
    }
  }

  lemma LonePreparation(start: Scan, tx: Transaction, endpoint: Proof, r: Report)
    requires |tx.logs| == 1 && FirstPreparation(tx.logs).Some? && start.refused.None?
    requires ScanLogs(start, tx, endpoint, r, |tx.logs|).refused.None?
    ensures !start.prepared && ScanLogs(start, tx, endpoint, r, |tx.logs|).prepared
  {
    hide PreparationFits, WordSpan;
    assert ScanLogs(start, tx, endpoint, r, 0) == start;
    assert tx.logs[1..] == [];
  }

  lemma DecisionKinds(scan: Scan, tx: Transaction, r: Report, state: State)
    ensures var d := Decide(scan, tx, r, CheckedFor(state, scan, tx, r));
      && (d.kind == Some(ResolveCondition) ==> scan.resolved)
      && (d.kind == Some(PrepareCondition) ==> |tx.logs| == 1 && FirstPreparation(tx.logs).Some?)
  {
    hide HasLifecycle, HasOperationEvent, HasReference, SentByOwner, FirstPreparation, C.DecodeCall, WordSpan;
    hide AreSplitLogs, AreMergeLogs, BurnSlots, RedeemLogs, InScope, BalanceOf;
  }

  ghost predicate Counted(state: State) {
    && CountKind(state.facts, ResolveCondition) <= (if state.payout.Some? then 1 else 0)
    && CountKind(state.facts, PrepareCondition) <= (if state.prepared then 1 else 0)
  }

  lemma VisitKeepsCounted(state: State, seen: Seen, block: Block, tx: Transaction, endpoint: Proof, r: Report)
    requires Counted(state)
    ensures var after := Visit(state, seen, block, tx, endpoint, r).0;
      Counted(after) && (after.prepared ==> state.prepared || Prepared(endpoint.status))
  {
    hide ScanLogs, Decide, CheckedFor, Inventory.Replay, FirstPreparation, CountKind, WordSpan;
    var after := Visit(state, seen, block, tx, endpoint, r).0;
    var start := StartScan(state, seen);
    var scan := ScanLogs(start, tx, endpoint, r, |tx.logs|);
    ScanProgress(start, tx, endpoint, r, |tx.logs|);
    DecisionKinds(scan, tx, r, state);
    var fact := after.facts[|after.facts| - 1];
    assert after.facts == state.facts + [fact];
    CountMore(state.facts, fact, ResolveCondition);
    CountMore(state.facts, fact, PrepareCondition);
    if fact.kind == Some(PrepareCondition) { LonePreparation(start, tx, endpoint, r); }
  }

  lemma {:induction false} VisitAllKeepsCounted(state: State, block: Block, endpoint: Proof, r: Report, n: nat)
    requires n <= |block.transactions| && Counted(state)
    ensures var after := VisitAll(state, block, endpoint, r, n).0;
      Counted(after) && (after.prepared ==> state.prepared || Prepared(endpoint.status))
  {
    hide Visit, Counted;
    if n > 0 {
      var before := VisitAll(state, block, endpoint, r, n - 1);
      VisitAllKeepsCounted(state, block, endpoint, r, n - 1);
      VisitKeepsCounted(before.0, before.1, block, block.transactions[n - 1], endpoint, r);
    }
  }

  /** At most one resolution is matched, and when neighbouring proofs follow each other validly at
      most one preparation is. */
  lemma {:induction false} OnePreparationOneResolution(r: Report, k: nat)
    requires r.Valid() && k <= |r.blocks| && Adjacent(r.proofs)
    ensures Counted(Through(r, k)) && Through(r, k).prepared == Prepared(r.proofs[k].status)
    ensures CountKind(Through(r, k).facts, ResolveCondition) <= 1
    ensures CountKind(Through(r, k).facts, PrepareCondition) <= 1
  {
    hide VisitAll, CountKind, BoundaryHolds, WordSpan;
    if k == 0 {
      NothingCounted();
    } else {
      OnePreparationOneResolution(r, k - 1);
      var block := r.blocks[k - 1];
      VisitAllKeepsCounted(Through(r, k - 1), block, r.proofs[k], r, |block.transactions|);
      assert TransitionIsValid(r.proofs[k - 1], r.proofs[k - 1 + 1]);
    }
  }

  lemma NothingCounted()
    ensures CountKind([], ResolveCondition) == 0 && CountKind([], PrepareCondition) == 0
  {
  }

  ghost predicate ResolvedOnce(state: State) {
    CountKind(state.facts, ResolveCondition) <= (if state.payout.Some? then 1 else 0)
  }

  /** Even with proofs that do not follow each other, at most one resolution is matched. */
  lemma {:induction false} OneResolution(r: Report, k: nat)
    requires r.Valid() && k <= |r.blocks|
    ensures ResolvedOnce(Through(r, k))
  {
    hide VisitAll, CountKind, BoundaryHolds, WordSpan;
    if k == 0 {
      NothingCounted();
    } else {
      OneResolution(r, k - 1);
      VisitAllResolvesOnce(Through(r, k - 1), r.blocks[k - 1], r.proofs[k], r, |r.blocks[k - 1].transactions|);
    }
  }

  lemma {:induction false} VisitAllResolvesOnce(state: State, block: Block, endpoint: Proof, r: Report, n: nat)
    requires n <= |block.transactions| && ResolvedOnce(state)
    ensures ResolvedOnce(VisitAll(state, block, endpoint, r, n).0)
  {
    hide Visit, ResolvedOnce;
    if n > 0 {
      var before := VisitAll(state, block, endpoint, r, n - 1);
      VisitAllResolvesOnce(state, block, endpoint, r, n - 1);
      VisitResolvesOnce(before.0, before.1, block, block.transactions[n - 1], endpoint, r);
    }
  }

  lemma VisitResolvesOnce(state: State, seen: Seen, block: Block, tx: Transaction, endpoint: Proof, r: Report)
    requires ResolvedOnce(state)
    ensures ResolvedOnce(Visit(state, seen, block, tx, endpoint, r).0)
  {
    hide ScanLogs, Decide, CheckedFor, Inventory.Replay, CountKind, WordSpan;
    var after := Visit(state, seen, block, tx, endpoint, r).0;
    var start := StartScan(state, seen);
    var scan := ScanLogs(start, tx, endpoint, r, |tx.logs|);
    ScanProgress(start, tx, endpoint, r, |tx.logs|);
    DecisionKinds(scan, tx, r, state);
    var fact := after.facts[|after.facts| - 1];
    assert after.facts == state.facts + [fact];
    CountMore(state.facts, fact, ResolveCondition);
  }
}
