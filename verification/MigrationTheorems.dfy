/** The promises of a whole migration interval: conservation, one resolution at most, and backing
    that does not depend on how the amounts were split or ordered. */
module MigrationTheorems {
  import opened Words
  import opened Ledger
  import opened Receipts
  import opened Migration
  import opened MigrationLaws
  import opened MigrationInterval
  import MigrationCodec

  /** No payout is known at the opening. */
  ghost predicate NoPayouts(setup: Setup) { setup.numerators == Pair(0, 0) }

  /** What the facts have minted of an outcome, and swept to the vault. */
  ghost function Minted(facts: seq<Fact>, i: Side): nat {
    if facts == [] then 0 else Minted(facts[..|facts| - 1], i) + RowTotal(facts[|facts| - 1].rows, i)
  }

  ghost function Swept(facts: seq<Fact>): nat {
    if facts == [] then 0 else Swept(facts[..|facts| - 1]) + facts[|facts| - 1].swept
  }

  /** The branch that the j-th migration of an interval must take. */
  ghost function BranchAt(j: nat, resolvedBefore: bool, setup: Setup): Branch {
    if NoPayouts(setup) then Unresolved
    else if j == 0 && !resolvedBefore then FirstResolution
    else StoredResolved
  }

  /** The whole branch sequence of an interval: unresolved throughout, or one first resolution
      at most, which comes first, and stored results from then on. */
  ghost predicate BranchesFollow(facts: seq<Fact>, resolvedBefore: bool, setup: Setup) {
    forall j :: 0 <= j < |facts| ==> facts[j].branch == BranchAt(j, resolvedBefore, setup)
  }

  ghost predicate ResultFollows(run: Run, opening: State, setup: Setup) {
    && (run.state.resolved <==> opening.resolved || (run.facts != [] && !NoPayouts(setup)))
    && (run.transitioned ==> run.state.resolved)
    && (run.facts != [] && !NoPayouts(setup) ==> setup.resolvedBinary && (opening.resolved || setup.pause == 0))
    && BranchesFollow(run.facts, opening.resolved, setup)
  }

  /** What migrations never change. */
  ghost predicate Conserved(s: State, opening: State) {
    && (forall i: Side ::
          s.ownerLegacy.Get(i) + s.ownerV2.Get(i) == opening.ownerLegacy.Get(i) + opening.ownerV2.Get(i))
    && s.ownerPusd == opening.ownerPusd && s.moduleUsdce == 0
    && (s.moduleLegacy.first == 0 || s.moduleLegacy.second == 0)
  }

  /** Everything minted is backed: by what the module still holds and what it has swept. */
  ghost predicate Backed(run: Run, opening: State, setup: Setup) {
    && (forall i: Side :: run.state.ownerV2.Get(i) == opening.ownerV2.Get(i) + Minted(run.facts, i))
    && (NoPayouts(setup) ==>
          forall i: Side :: run.state.moduleLegacy.Get(i) + Swept(run.facts) == Minted(run.facts, i))
  }

  ghost predicate Invariant(run: Run, opening: State, setup: Setup) {
    ResultFollows(run, opening, setup) && Conserved(run.state, opening) && Backed(run, opening, setup)
  }

  // ----- one migration

  lemma BranchIsExpected(resolved: bool, setup: Setup)
    requires BranchOf(resolved, setup).Some?
    ensures var branch := BranchOf(resolved, setup).value;
      && (branch.Unresolved? <==> NoPayouts(setup)) && (branch.FirstResolution? <==> !NoPayouts(setup) && !resolved)
      && (branch.Unresolved? ==> !resolved) && (!branch.Unresolved? ==> setup.resolvedBinary)
      && (branch.FirstResolution? ==> setup.pause == 0)
  {
    hide WordSpan, Normalize;
  }

  lemma MigrationTakesBranch(s: State, rows: seq<Row>, setup: Setup)
    requires Migrate(s, rows, setup).Some?
    ensures Some(Migrate(s, rows, setup).value.branch) == BranchOf(s.resolved, setup)
  {
    hide WordSpan, Deposit, Settle, BranchOf, DepositLogs, RowLogs, ResolveLogs, SweepLogs, NormalizedFor;
  }

  lemma MintedMore(facts: seq<Fact>, fact: Fact, i: Side)
    ensures Minted(facts + [fact], i) == Minted(facts, i) + RowTotal(fact.rows, i)
    ensures Swept(facts + [fact]) == Swept(facts) + fact.swept
  {
    assert (facts + [fact])[..|facts|] == facts;
  }

  lemma RecordKeepsResult(run: Run, opening: State, block: Block, tx: Transaction, rows: seq<Row>, setup: Setup)
    requires ResultFollows(run, opening, setup) && Migrate(run.state, rows, setup).Some?
    ensures ResultFollows(Record(run, block, tx, rows, Migrate(run.state, rows, setup).value), opening, setup)
  {
    MigrationTakesBranch(run.state, rows, setup);
    BranchIsExpected(run.state.resolved, setup);
    MigrationLeavesNoSet(run.state, rows, setup);
    hide Migrate, BranchOf, NoPayouts;
  }

  lemma MigrationKeepsConserved(s: State, opening: State, rows: seq<Row>, setup: Setup)
    requires Conserved(s, opening) && Migrate(s, rows, setup).Some?
    ensures Conserved(Migrate(s, rows, setup).value.next, opening)
  {
    hide Migrate;
    MigrationLeavesNoSet(s, rows, setup);
    MigrationConserves(s, rows, setup, 0);
    MigrationConserves(s, rows, setup, 1);
  }

  lemma RecordKeepsBacked(run: Run, opening: State, block: Block, tx: Transaction, rows: seq<Row>, setup: Setup)
    requires Backed(run, opening, setup) && run.state.moduleUsdce == 0 && Migrate(run.state, rows, setup).Some?
    ensures Backed(Record(run, block, tx, rows, Migrate(run.state, rows, setup).value), opening, setup)
  {
    var m := Migrate(run.state, rows, setup).value;
    MigrationTakesBranch(run.state, rows, setup);
    BranchIsExpected(run.state.resolved, setup);
    hide Migrate, BranchOf, NoPayouts, Minted, Swept, RowTotal;
    var facts := run.facts + [FactOf(block, tx, rows, m)];
    forall i: Side
      ensures m.next.ownerV2.Get(i) == opening.ownerV2.Get(i) + Minted(facts, i)
      ensures NoPayouts(setup) ==> m.next.moduleLegacy.Get(i) + Swept(facts) == Minted(facts, i)
    {
      MintedMore(run.facts, FactOf(block, tx, rows, m), i);
      MigrationMoves(run.state, rows, setup, OwnerV2(i));
      MigrationMoves(run.state, rows, setup, ModuleLegacy(i));
      if NoPayouts(setup) { UnresolvedRedeemsNothing(run.state, rows, setup); }
    }
  }

  lemma UnresolvedRedeemsNothing(s: State, rows: seq<Row>, setup: Setup)
    requires Migrate(s, rows, setup).Some? && Migrate(s, rows, setup).value.branch.Unresolved?
    ensures Migrate(s, rows, setup).value.redeemed == 0
  {
    hide WordSpan, Deposit, BranchOf, DepositLogs, RowLogs, ResolveLogs, SweepLogs, NormalizedFor, MergeLogs;
  }

  // ----- unrelated transfers

  lemma {:induction false} PassKeeps(s: State, logs: seq<Log>, setup: Setup)
    requires PassLogs(s, logs, setup).Some?
    ensures var next := PassLogs(s, logs, setup).value;
      next == s.(ctfUsdce := next.ctfUsdce, vaultUsdce := next.vaultUsdce)
  {
    hide WordSpan;
    if logs != [] {
      PassKeeps(s, logs[..|logs| - 1], setup);
    }
  }

  // ----- whole runs

  lemma VisitKeeps(run: Run, opening: State, block: Block, tx: Transaction, setup: Setup)
    requires Invariant(run, opening, setup) && Visit(run, block, tx, setup).Going?
    ensures Invariant(Visit(run, block, tx, setup).run, opening, setup)
  {
    hide WordSpan, Migrate, PassLogs, RowsOf, HasRelevantActivity, HasControlChange, ResultFollows, Backed, Record;
    if IsMigrationCall(tx, setup) {
      var rows := RowsOf(tx.input.GetOr([]), setup).value;
      RecordKeepsResult(run, opening, block, tx, rows, setup);
      RecordKeepsBacked(run, opening, block, tx, rows, setup);
      MigrationKeepsConserved(run.state, opening, rows, setup);
      RecordHasState(run, block, tx, rows, Migrate(run.state, rows, setup).value);
    } else {
      PassKeeps(run.state, tx.logs, setup);
      PassedKeeps(run, opening, PassLogs(run.state, tx.logs, setup).value, setup);
    }
  }

  lemma RecordHasState(run: Run, block: Block, tx: Transaction, rows: seq<Row>, m: Migrated)
    ensures Record(run, block, tx, rows, m).state == m.next
  {
  }

  lemma PassedKeeps(run: Run, opening: State, next: State, setup: Setup)
    requires Invariant(run, opening, setup)
    requires next == run.state.(ctfUsdce := next.ctfUsdce, vaultUsdce := next.vaultUsdce)
    ensures Invariant(run.(state := next), opening, setup)
  {
    hide WordSpan, Minted, Swept;
  }

  lemma {:induction false} VisitAllKeeps(run: Run, opening: State, block: Block, setup: Setup, n: nat)
    requires n <= |block.transactions| && Invariant(run, opening, setup) && VisitAll(run, block, setup, n).Going?
    ensures Invariant(VisitAll(run, block, setup, n).run, opening, setup)
  {
    hide Visit, Invariant;
    if n > 0 {
      VisitAllKeeps(run, opening, block, setup, n - 1);
      VisitKeeps(VisitAll(run, block, setup, n - 1).run, opening, block, block.transactions[n - 1], setup);
    }
  }

  ghost function StartOf(opening: State): Run { Run(opening, [], false) }

  /** Throughout an interval that starts with an empty module, all of it holds. */
  lemma {:induction false} ThroughKeeps(opening: State, blocks: seq<Block>, boundaries: seq<Boundary>, setup: Setup,
                                        k: nat)
    requires k <= |blocks| == |boundaries| && Through(StartOf(opening), blocks, boundaries, setup, k).Going?
    requires opening.moduleLegacy == Pair(0, 0) && opening.moduleUsdce == 0
    ensures Invariant(Through(StartOf(opening), blocks, boundaries, setup, k).run, opening, setup)
    ensures k > 0 ==> boundaries[k - 1].state == Through(StartOf(opening), blocks, boundaries, setup, k).run.state
  {
    hide VisitAll, FirstMismatch;
    if k > 0 {
      ThroughKeeps(opening, blocks, boundaries, setup, k - 1);
      VisitAllKeeps(Through(StartOf(opening), blocks, boundaries, setup, k - 1).run, opening, blocks[k - 1], setup,
                    |blocks[k - 1].transactions|);
    }
  }

  /** In an unresolved interval only the totals count: the module keeps of each outcome what its
      total exceeds the smaller one by, and the vault has received the smaller total. */
  lemma UnresolvedIsBacked(opening: State, blocks: seq<Block>, boundaries: seq<Boundary>, setup: Setup, k: nat)
    requires k <= |blocks| == |boundaries| && Through(StartOf(opening), blocks, boundaries, setup, k).Going?
    requires opening.moduleLegacy == Pair(0, 0) && opening.moduleUsdce == 0 && NoPayouts(setup)
    ensures var run := Through(StartOf(opening), blocks, boundaries, setup, k).run;
      var least := Min(Minted(run.facts, 0), Minted(run.facts, 1));
      && Swept(run.facts) == least
      && run.state.moduleLegacy.first == Minted(run.facts, 0) - least
      && run.state.moduleLegacy.second == Minted(run.facts, 1) - least
  {
    hide Through, Minted, Swept, ResultFollows;
    ThroughKeeps(opening, blocks, boundaries, setup, k);
    var run := Through(StartOf(opening), blocks, boundaries, setup, k).run;
    assert run.state.moduleLegacy.Get(0) + Swept(run.facts) == Minted(run.facts, 0);
    assert run.state.moduleLegacy.Get(1) + Swept(run.facts) == Minted(run.facts, 1);
  }

  /** The last look at the stored result never refuses: the last boundary already has it. */
  lemma ClosingNeverRefuses(opening: State, blocks: seq<Block>, boundaries: seq<Boundary>, setup: Setup, through: U64)
    requires |blocks| == |boundaries| && Through(StartOf(opening), blocks, boundaries, setup, |blocks|).Going?
    requires opening.moduleLegacy == Pair(0, 0) && opening.moduleUsdce == 0
    ensures Closing(Through(StartOf(opening), blocks, boundaries, setup, |blocks|).run, boundaries, through).Matched?
  {
    hide Through, Conserved, Backed;
    ThroughKeeps(opening, blocks, boundaries, setup, |blocks|);
  }

  // ----- the replay against the receipt logs

  lemma PositionLogIsStill(log: Log, setup: Setup, h: Holding)
    requires setup.Separate() && !IsRelevant(log, setup)
    requires !(log.Moved? && log.movement.Cash?)
    ensures Step(log, HolderOf(h, setup), AssetFor(h, setup)) == 0
  {
    hide WordSpan, BatchAmount, EmittedBy;
    if log.Moved? && log.movement.Batch? {
      var m, asset := log.movement, AssetFor(h, setup);
      if asset.Position? && asset.id !in m.ids { UnlistedBatch(m.ids, m.amounts, asset.id); }
    }
  }

  lemma PassTransferMoves(s: State, from: Address, to: Address, amount: U256, setup: Setup, h: Holding)
    requires setup.Separate() && PassTransfer(s, from, to, amount, setup).Some?
    ensures Held(PassTransfer(s, from, to, amount, setup).value, h)
      == Held(s, h) + Step(Transfer(from, to, amount), HolderOf(h, setup), AssetFor(h, setup))
  {
    hide WordSpan;
  }

  lemma PassLogMoves(s: State, log: Log, setup: Setup, h: Holding)
    requires setup.Separate() && !IsRelevant(log, setup) && PassLog(s, log, setup).Some?
    ensures Held(PassLog(s, log, setup).value, h) == Held(s, h) + Step(log, HolderOf(h, setup), AssetFor(h, setup))
  {
    hide WordSpan, BatchAmount, EmittedBy, PassTransfer, Held;
    if log.Moved? && log.movement.Cash? {
      var m := log.movement;
      if m.token.Usdce? { PassTransferMoves(s, m.from, m.to, m.amount, setup, h); }
    } else {
      PositionLogIsStill(log, setup, h);
    }
  }

  lemma {:induction false} PassLogsMove(s: State, logs: seq<Log>, setup: Setup, h: Holding)
    requires setup.Separate() && !HasRelevantActivity(logs, setup) && PassLogs(s, logs, setup).Some?
    ensures Held(PassLogs(s, logs, setup).value, h) == Held(s, h) + LogsMove(logs, h, setup)
  {
    hide WordSpan, IsRelevant, PassLog, Held, LogsMove, Step;
    LogsLaws(h, setup);
    if logs != [] {
      var front, last := logs[..|logs| - 1], logs[|logs| - 1];
      assert logs == front + [last] && last in logs;
      assert forall log :: log in front ==> log in logs;
      PassLogsMove(s, front, setup, h);
      PassLogMoves(PassLogs(s, front, setup).value, last, setup, h);
    }
  }

  /** One visited transaction changes every tracked balance by exactly the net of its logs. */
  lemma VisitMoves(run: Run, block: Block, tx: Transaction, setup: Setup, h: Holding)
    requires setup.Separate() && Visit(run, block, tx, setup).Going?
    ensures Held(Visit(run, block, tx, setup).run.state, h) == Held(run.state, h) + LogsMove(tx.logs, h, setup)
  {
    hide WordSpan, Migrate, PassLogs, RowsOf, HasRelevantActivity, HasControlChange, Held, LogsMove;
    if IsMigrationCall(tx, setup) {
      MigrationLogsMove(run.state, RowsOf(tx.input.GetOr([]), setup).value, setup, h);
    } else {
      PassLogsMove(run.state, tx.logs, setup, h);
    }
  }

  lemma {:induction false} VisitAllMoves(run: Run, block: Block, setup: Setup, n: nat, h: Holding)
    requires n <= |block.transactions| && setup.Separate() && VisitAll(run, block, setup, n).Going?
    ensures Held(VisitAll(run, block, setup, n).run.state, h)
      == Held(run.state, h) + LogsMove(TransactionsLogs(block.transactions, n), h, setup)
  {
    hide Visit, Held, LogsMove;
    LogsLaws(h, setup);
    if n > 0 {
      VisitAllMoves(run, block, setup, n - 1, h);
      VisitMoves(VisitAll(run, block, setup, n - 1).run, block, block.transactions[n - 1], setup, h);
    }
  }

  /** At every boundary that the replay passes, each of the ten authenticated balances is the
      opening one plus the net of all receipt logs so far. */
  lemma {:induction false} BoundariesMatchLogs(opening: State, blocks: seq<Block>, boundaries: seq<Boundary>,
                                               setup: Setup, k: nat, h: Holding)
    requires k <= |blocks| == |boundaries| && Through(StartOf(opening), blocks, boundaries, setup, k).Going?
    requires setup.Separate()
    ensures Held(Through(StartOf(opening), blocks, boundaries, setup, k).run.state, h)
      == Held(opening, h) + LogsMove(BlocksLogs(blocks, k), h, setup)
    ensures k > 0 ==>
      Held(boundaries[k - 1].state, h) == Held(opening, h) + LogsMove(BlocksLogs(blocks, k), h, setup)
  {
    hide VisitAll, FirstMismatch, Held, LogsMove, TransactionsLogs;
    LogsLaws(h, setup);
    if k > 0 {
      BoundariesMatchLogs(opening, blocks, boundaries, setup, k - 1, h);
      VisitAllMoves(Through(StartOf(opening), blocks, boundaries, setup, k - 1).run, blocks[k - 1], setup,
                    |blocks[k - 1].transactions|, h);
    }
  }

  // ----- where the facts come from

  /** The fact is one successful transaction, sent by the owner to the module without value, whose
      calldata encodes the fact's rows and whose logs are exactly those of the migration. */
  ghost predicate IsFactOf(fact: Fact, before: State, block: Block, tx: Transaction, setup: Setup) {
    && SentByOwner(tx, setup) && tx.to == Some(setup.module_)
    && MigrationCodec.SELECTOR <= tx.input.GetOr([]) && MigrationCodec.Encodes(tx.input.GetOr([]), fact.rows, setup)
    && var m := Migrate(before, fact.rows, setup);
       m.Some? && tx.logs == m.value.logs && fact == FactOf(block, tx, fact.rows, m.value)
  }

  ghost predicate ComesFrom(fact: Fact, blocks: seq<Block>, setup: Setup) {
    exists k, t, before :: 0 <= k < |blocks| && 0 <= t < |blocks[k].transactions|
                           && IsFactOf(fact, before, blocks[k], blocks[k].transactions[t], setup)
  }

  ghost predicate AllComeFrom(facts: seq<Fact>, blocks: seq<Block>, setup: Setup) {
    forall f :: f in facts ==> ComesFrom(f, blocks, setup)
  }

  lemma VisitKeepsOrigins(run: Run, blocks: seq<Block>, k: nat, t: nat, setup: Setup)
    requires k < |blocks| && t < |blocks[k].transactions| && AllComeFrom(run.facts, blocks, setup)
    requires Visit(run, blocks[k], blocks[k].transactions[t], setup).Going?
    ensures AllComeFrom(Visit(run, blocks[k], blocks[k].transactions[t], setup).run.facts, blocks, setup)
  {
    hide Migrate, PassLogs, HasRelevantActivity, HasControlChange, MigrationCodec.Encodes, WordSpan;
    var tx := blocks[k].transactions[t];
    if IsMigrationCall(tx, setup) {
      var rows := RowsOf(tx.input.GetOr([]), setup).value;
      var fact := FactOf(blocks[k], tx, rows, Migrate(run.state, rows, setup).value);
      assert IsFactOf(fact, run.state, blocks[k], tx, setup);
    }
  }

  lemma {:induction false} VisitAllKeepsOrigins(run: Run, blocks: seq<Block>, k: nat, n: nat, setup: Setup)
    requires k < |blocks| && n <= |blocks[k].transactions| && AllComeFrom(run.facts, blocks, setup)
    requires VisitAll(run, blocks[k], setup, n).Going?
    ensures AllComeFrom(VisitAll(run, blocks[k], setup, n).run.facts, blocks, setup)
  {
    hide Visit, AllComeFrom;
    if n > 0 {
      VisitAllKeepsOrigins(run, blocks, k, n - 1, setup);
      VisitKeepsOrigins(VisitAll(run, blocks[k], setup, n - 1).run, blocks, k, n - 1, setup);
    }
  }

  /** Every migration that a replay reports is such a transaction of the interval. */
  lemma {:induction false} FactsAreTransactions(opening: State, blocks: seq<Block>, boundaries: seq<Boundary>,
                                                setup: Setup, k: nat)
    requires k <= |blocks| == |boundaries| && Through(StartOf(opening), blocks, boundaries, setup, k).Going?
    ensures AllComeFrom(Through(StartOf(opening), blocks, boundaries, setup, k).run.facts, blocks, setup)
  {
    hide VisitAll, ComesFrom, FirstMismatch;
    if k > 0 {
      FactsAreTransactions(opening, blocks, boundaries, setup, k - 1);
      VisitAllKeepsOrigins(Through(StartOf(opening), blocks, boundaries, setup, k - 1).run, blocks, k - 1,
                           |blocks[k - 1].transactions|, setup);
    }
  }
}
