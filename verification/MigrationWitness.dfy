/** The receipts of a migration, log by log, and an interval in which a whole balance migrates. */
module MigrationWitness {
  import opened Words
  import opened Ledger
  import opened Receipts
  import opened Migration
  import opened MigrationLaws
  import opened MigrationInterval
  import opened MigrationTheorems
  import opened MigrationAcceptance
  import MigrationCodec

  // ----- the parts of a receipt

  /** What the module holds when the settlement begins, as words. */
  ghost predicate IsPool(held: Pair, collateral: U256, s: State, rows: seq<Row>, setup: Setup) {
    && CanMigrate(s, rows, setup) && collateral == Collateral(s, rows, setup)
    && held == Pair(Pooled(s, rows, 0), Pooled(s, rows, 1))
  }

  lemma SettlementLogs(s: State, rows: seq<Row>, setup: Setup, held: Pair, collateral: U256)
    requires IsPool(held, collateral, s, rows, setup) && Migrate(s, rows, setup).Some?
    ensures var r := Settle(Pooling(s, rows, setup), BranchOf(s.resolved, setup).value, setup);
      && r.Some? && r.value.next.moduleUsdce == s.moduleUsdce + collateral
      && r.value.logs == if NoPayouts(setup) then MergeLogs(collateral, setup)
                         else RedemptionLogs(held, collateral, setup)
  {
    MigrationIsSettled(s, rows, setup);
    PoolingHolds(s, rows, setup);
    BranchIsExpected(s.resolved, setup);
    var p := Pooling(s, rows, setup);
    assert p.moduleLegacy.Get(0) == Pooled(s, rows, 0) && p.moduleLegacy.Get(1) == Pooled(s, rows, 1);
    hide WordSpan, BranchOf, Deposit, Migrate, Pooling, Pooled, RowTotal, Settle, Share, RedemptionLogs, MergeLogs;
    hide ResultReady, ProductsFit, RowsFit, Sweep;
    SettledLogs(p, BranchOf(s.resolved, setup).value, held, collateral, setup);
  }

  lemma SettledLogs(p: State, branch: Branch, held: Pair, collateral: U256, setup: Setup)
    requires Settle(p, branch, setup).Some? && p.moduleLegacy == held && (branch.Unresolved? || setup.denominator > 0)
    requires collateral == if branch.Unresolved? then Min(held.first, held.second)
                           else Share(held.first, setup.numerators.first, setup.denominator)
                                + Share(held.second, setup.numerators.second, setup.denominator)
    ensures var r := Settle(p, branch, setup).value;
      && r.next.moduleUsdce == p.moduleUsdce + collateral
      && r.logs == if branch.Unresolved? then MergeLogs(collateral, setup) else RedemptionLogs(held, collateral, setup)
  {
    hide WordSpan, RedemptionOf, Share, RedemptionLogs, MergeLogs;
    if !branch.Unresolved? { RedemptionIsAccepted(held, setup, collateral); }
  }

  /** A receipt in its parts: the deposit, a first result, the settlement, the rows, the sweep. */
  lemma ReceiptParts(s: State, rows: seq<Row>, setup: Setup, held: Pair, collateral: U256, swept: U256,
                     result: seq<Log>)
    requires IsPool(held, collateral, s, rows, setup) && swept == s.moduleUsdce + collateral
    requires result == if NoPayouts(setup) || s.resolved then [] else ResolveLogs(FirstResolution, setup)
    ensures MigrationOf(s, rows, setup).logs
      == DepositLogs(rows, setup) + result
         + (if NoPayouts(setup) then MergeLogs(collateral, setup) else RedemptionLogs(held, collateral, setup))
         + RowLogs(rows, setup) + SweepLogs(swept, setup)
  {
    MigrationIsAccepted(s, rows, setup);
    MigrationIsSettled(s, rows, setup);
    SettlementLogs(s, rows, setup, held, collateral);
    BranchIsExpected(s.resolved, setup);
    LogsOfBranch(s.resolved, setup, result);
    hide WordSpan, BranchOf, Deposit, CanMigrate, DepositLogs, RowLogs, SweepLogs, RedemptionLogs, MergeLogs, Settle;
    hide ResolveLogs, Sweep, NormalizedFor;
  }

  lemma LogsOfBranch(resolved: bool, setup: Setup, result: seq<Log>)
    requires BranchOf(resolved, setup).Some?
    requires result == if NoPayouts(setup) || resolved then [] else ResolveLogs(FirstResolution, setup)
    ensures ResolveLogs(BranchOf(resolved, setup).value, setup) == result
  {
    BranchIsExpected(resolved, setup);
    hide WordSpan, BranchOf, Normalize;
  }

  // ----- receipts, log by log

  function Usdces(from: Address, to: Address, amount: U256): Log { Moved(Cash(Usdce, from, to, amount)) }

  function LegacyBatch(from: Address, to: Address, ids: seq<U256>, amounts: seq<U256>, setup: Setup): Log {
    Moved(Batch(ConditionalTokens, setup.module_, from, to, ids, amounts))
  }

  function Minting(ids: seq<U256>, amounts: seq<U256>, setup: Setup): Log {
    Moved(Batch(PositionManager, setup.module_, 0, setup.owner, ids, amounts))
  }

  /** The notice of one migrated row. */
  function Notice(id: U256, i: Side, amount: U256, setup: Setup): Log {
    Noted(Emitted(setup.module_, PositionMigrated, [setup.owner, setup.condition, id, i, amount]))
  }

  function Swept(amount: U256, setup: Setup): Log {
    Noted(Emitted(setup.module_, CollateralSettled, [setup.usdce, setup.vault, amount]))
  }

  lemma RowPairLogs(rows: seq<Row>, a: U256, b: U256, setup: Setup)
    requires rows == [Row(0, a), Row(1, b)]
    ensures DepositLogs(rows, setup)
      == [LegacyBatch(setup.owner, setup.module_, [setup.legacyIds.first, setup.legacyIds.second], [a, b], setup),
          Minting([setup.v2Ids.first, setup.v2Ids.second], [a, b], setup)]
    ensures RowLogs(rows, setup) == [Notice(setup.v2Ids.first, 0, a, setup), Notice(setup.v2Ids.second, 1, b, setup)]
  {
    hide WordSpan;
    assert rows[1..] == [Row(1, b)] && rows[1..][1..] == [];
    assert rows[..1] == [Row(0, a)] && rows[..1][..0] == [];
    assert Amounts(rows[1..]) == [b] && Amounts(rows) == [a, b];
    assert Ids(rows[1..], setup.legacyIds) == [setup.legacyIds.second];
    assert Ids(rows, setup.legacyIds) == [setup.legacyIds.first, setup.legacyIds.second];
    assert Ids(rows[1..], setup.v2Ids) == [setup.v2Ids.second];
    assert Ids(rows, setup.v2Ids) == [setup.v2Ids.first, setup.v2Ids.second];
    assert RowLogs(rows[..1], setup) == [Notice(setup.v2Ids.first, 0, a, setup)];
  }

  /** Both outcomes without a payout, by a module that held nothing: the smaller amount is merged. */
  lemma UnresolvedReceipt(s: State, a: U256, b: U256, least: U256, setup: Setup)
    requires CanMigrate(s, [Row(0, a), Row(1, b)], setup) && NoPayouts(setup)
    requires s.moduleLegacy == Pair(0, 0) && s.moduleUsdce == 0
    requires 0 < least <= a && least <= b && (least == a || least == b)
    ensures var m, o, t, v := setup.module_, setup.owner, setup.legacyIds, setup.v2Ids;
      MigrationOf(s, [Row(0, a), Row(1, b)], setup).logs ==
      [LegacyBatch(o, m, [t.first, t.second], [a, b], setup),
       Minting([v.first, v.second], [a, b], setup),
       LegacyBatch(m, 0, [t.first, t.second], [least, least], setup),
       Usdces(setup.ctf, m, least),
       Noted(OfCtf(SetMerged(m, setup.usdce, 0, setup.legacyCondition, [1, 2], least))),
       Notice(v.first, 0, a, setup), Notice(v.second, 1, b, setup),
       Usdces(m, setup.vault, least), Swept(least, setup)]
  {
    hide WordSpan, CanMigrate;
    var rows := [Row(0, a), Row(1, b)];
    RowPairTotals(rows, a, b);
    assert IsPool(Pair(a, b), least, s, rows, setup);
    ReceiptParts(s, rows, setup, Pair(a, b), least, least, []);
    RowPairLogs(rows, a, b, setup);
    hide MigrationOf, DepositLogs, RowLogs;
  }

  lemma RowPairTotals(rows: seq<Row>, a: U256, b: U256)
    requires rows == [Row(0, a), Row(1, b)]
    ensures RowTotal(rows, 0) == a && RowTotal(rows, 1) == b
  {
    assert rows[..1] == [Row(0, a)] && rows[..1][..0] == [];
    assert RowTotal(rows[..1], 0) == a && RowTotal(rows[..1], 1) == 0;
  }

  function Burn(i: Side, amount: U256, setup: Setup): Log {
    Moved(Single(ConditionalTokens, setup.module_, setup.module_, 0,
                 if i == 0 then setup.legacyIds.first else setup.legacyIds.second, amount))
  }

  function Redeemed(total: U256, setup: Setup): Log {
    Noted(OfCtf(PayoutRedeemed(setup.module_, setup.usdce, 0, setup.legacyCondition, [1, 2], total)))
  }

  /** The three events of a first result. */
  function FirstResult(n: Pair, setup: Setup): seq<Log> {
    var m, c := setup.module_, setup.condition;
    [Noted(Emitted(m, ResultStored, [c, n.first, n.second])),
     Noted(Emitted(m, ResultReported, [m, c, n.first, n.second])),
     Noted(Emitted(m, LegacyResolved,
                   [c, setup.legacyCondition, setup.numerators.first, setup.numerators.second, n.first, n.second]))]
  }

  lemma FirstResultIs(s: State, n: Pair, setup: Setup)
    requires ResultReady(s.resolved, setup) && !NoPayouts(setup) && !s.resolved && IsNormalized(n, setup.numerators)
    ensures ResolveLogs(FirstResolution, setup) == FirstResult(n, setup)
  {
    hide WordSpan, Normalize;
    NormalizeIsAccepted(setup.numerators);
    NormalizedIs(setup.numerators);
    assert [setup.condition] + [n.first, n.second] == [setup.condition, n.first, n.second];
    assert [setup.module_, setup.condition] + [n.first, n.second]
        == [setup.module_, setup.condition, n.first, n.second];
    assert [setup.condition, setup.legacyCondition, setup.numerators.first, setup.numerators.second]
           + [n.first, n.second]
        == [setup.condition, setup.legacyCondition, setup.numerators.first, setup.numerators.second, n.first, n.second];
  }

  /** Both outcomes with payouts, by a module that held nothing: each is burned for its own floor,
      after the result is stored if it was not. */
  lemma ResolvedReceipt(s: State, a: U256, b: U256, total: U256, n: Pair, setup: Setup)
    requires CanMigrate(s, [Row(0, a), Row(1, b)], setup) && !NoPayouts(setup) && IsNormalized(n, setup.numerators)
    requires s.moduleLegacy == Pair(0, 0) && s.moduleUsdce == 0 && a > 0 && b > 0 && total > 0
    requires total == Share(a, setup.numerators.first, setup.denominator)
                    + Share(b, setup.numerators.second, setup.denominator)
    ensures var m, o, t, v := setup.module_, setup.owner, setup.legacyIds, setup.v2Ids;
      MigrationOf(s, [Row(0, a), Row(1, b)], setup).logs ==
      [LegacyBatch(o, m, [t.first, t.second], [a, b], setup), Minting([v.first, v.second], [a, b], setup)]
      + (if s.resolved then [] else FirstResult(n, setup))
      + [Burn(0, a, setup), Burn(1, b, setup), Usdces(setup.ctf, m, total), Redeemed(total, setup),
         Notice(v.first, 0, a, setup), Notice(v.second, 1, b, setup),
         Usdces(m, setup.vault, total), Swept(total, setup)]
  {
    hide WordSpan, Share;
    var rows := [Row(0, a), Row(1, b)];
    RowPairTotals(rows, a, b);
    assert IsPool(Pair(a, b), total, s, rows, setup);
    var result := if s.resolved then [] else FirstResult(n, setup);
    if !s.resolved { FirstResultIs(s, n, setup); }
    ReceiptParts(s, rows, setup, Pair(a, b), total, total, result);
    RowPairLogs(rows, a, b, setup);
    RedemptionIs(a, b, total, setup);
    hide MigrationOf, DepositLogs, RowLogs, CanMigrate, FirstResult, IsPool, RedemptionLogs, SweepLogs;
  }

  lemma RedemptionIs(a: U256, b: U256, total: U256, setup: Setup)
    requires a > 0 && b > 0 && total > 0
    ensures RedemptionLogs(Pair(a, b), total, setup)
      == [Burn(0, a, setup), Burn(1, b, setup), Usdces(setup.ctf, setup.module_, total), Redeemed(total, setup)]
    ensures SweepLogs(total, setup) == [Usdces(setup.module_, setup.vault, total), Swept(total, setup)]
  {
    hide WordSpan;
  }

  lemma OneRowLogs(rows: seq<Row>, i: Side, n: U256, setup: Setup)
    requires rows == [Row(i, n)]
    ensures DepositLogs(rows, setup)
      == [LegacyBatch(setup.owner, setup.module_, [setup.legacyIds.Get(i)], [n], setup),
          Minting([setup.v2Ids.Get(i)], [n], setup)]
    ensures RowLogs(rows, setup) == [Notice(setup.v2Ids.Get(i), i, n, setup)]
    ensures RowTotal(rows, i) == n && RowTotal(rows, 1 - i) == 0
  {
    hide WordSpan;
    assert rows[1..] == [] && rows[..0] == [];
    assert Amounts(rows) == [n] && Ids(rows, setup.legacyIds) == [setup.legacyIds.Get(i)];
    assert Ids(rows, setup.v2Ids) == [setup.v2Ids.Get(i)];
  }

  // ----- a whole balance

  /** An owner migrates all n positions of one outcome, unresolved: they stay with the module. */
  lemma WholeBalanceMatches(opening: State, n: U256, block: Block, tx: Transaction, next: State, setup: Setup,
                            from: U64, through: U64)
    requires opening.ownerLegacy == Pair(n, 0) && n > 0 && opening.ownerV2.first + n < WordSpan()
    requires opening.moduleLegacy == Pair(0, 0) && opening.moduleUsdce == 0 && !opening.resolved && NoPayouts(setup)
    requires block.transactions == [tx] && tx.to == Some(setup.module_)
    requires tx.succeeded && tx.replayProtected && tx.value == 0 && tx.recoveredFrom == Some(setup.owner)
    requires tx.input.Some? && MigrationCodec.SELECTOR <= tx.input.value
    requires MigrationCodec.Encodes(tx.input.value, [Row(0, n)], setup)
    requires tx.logs == [LegacyBatch(setup.owner, setup.module_, [setup.legacyIds.first], [n], setup),
                         Minting([setup.v2Ids.first], [n], setup), Notice(setup.v2Ids.first, 0, n, setup)]
    requires next == opening.(ownerLegacy := Pair(0, 0), moduleLegacy := Pair(n, 0),
                              ownerV2 := Pair(opening.ownerV2.first + n, opening.ownerV2.second))
    ensures Interval(Opening(opening, 1), [block], [Boundary(next, setup.pause)], setup, from, through)
      == Matched([Fact(block.number, block.hash, tx.hash, tx.index, Unresolved, [Row(0, n)], Pair(n, 0), 0, 0, 0,
                       None)])
  {
    hide WordSpan, MigrationCodec.Encodes, Share;
    var rows := [Row(0, n)];
    OneRowLogs(rows, 0, n, setup);
    assert Pooled(opening, rows, 0) == n && Pooled(opening, rows, 1) == 0;
    assert CanMigrate(opening, rows, setup) && Lands(next, opening, rows, setup);
    assert IsPool(Pair(n, 0), 0, opening, rows, setup);
    ReceiptParts(opening, rows, setup, Pair(n, 0), 0, 0, []);
    MigrationReports(opening, rows, setup);
    hide CanMigrate, Lands, IsPool, DepositLogs, RowLogs, Interval, MigrationOf, RowTotal, AreHonest, Planned;
    assert IsMigrationOf(tx, rows, opening, setup);
    SoleBlock(opening, block, Boundary(next, setup.pause), rows, setup);
    HonestIntervalMatches(opening, [block], [Boundary(next, setup.pause)], [Some(rows)], setup, from, through);
  }

  lemma SoleBlock(opening: State, block: Block, boundary: Boundary, rows: seq<Row>, setup: Setup)
    requires IsHonest(opening, block, boundary, Some(rows), setup)
    ensures AreHonest(opening, [block], [boundary], [Some(rows)], setup)
    ensures Planned(opening, [block], [boundary], [Some(rows)], setup, 1)
      == [FactOf(block, block.transactions[0], rows, MigrationOf(opening, rows, setup))]
  {
    hide IsHonest, MigrationOf, WordSpan;
    assert Planned(opening, [block], [boundary], [Some(rows)], setup, 0) == [];
  }
}
