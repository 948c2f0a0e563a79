/** What one migration keeps, and that its logs move exactly what its record says. */
module MigrationLaws {
  import opened Words
  import opened Ledger
  import opened Migration

  ghost function HolderOf(h: Holding, setup: Setup): Address {
    match h
    case OwnerLegacy(_) => setup.owner
    case ModuleLegacy(_) => setup.module_
    case OwnerV2(_) => setup.owner
    case OwnerPusd => setup.owner
    case ModuleUsdce => setup.module_
    case CtfUsdce => setup.ctf
    case VaultUsdce => setup.vault
  }

  ghost function AssetFor(h: Holding, setup: Setup): Asset {
    match h
    case OwnerLegacy(i) => Position(ConditionalTokens, setup.legacyIds.Get(i))
    case ModuleLegacy(i) => Position(ConditionalTokens, setup.legacyIds.Get(i))
    case OwnerV2(i) => Position(PositionManager, setup.v2Ids.Get(i))
    case OwnerPusd => Fungible(Pusd)
    case ModuleUsdce => Fungible(Usdce)
    case CtfUsdce => Fungible(Usdce)
    case VaultUsdce => Fungible(Usdce)
  }

  /** What some logs move of a tracked balance. */
  ghost function LogsMove(logs: seq<Log>, h: Holding, setup: Setup): int {
    Net(logs, HolderOf(h, setup), AssetFor(h, setup))
  }

  // ----- deposits

  ghost function RowTotal(rows: seq<Row>, i: Side): nat {
    if rows == [] then
      0
    else
      var last := rows[|rows| - 1];
      RowTotal(rows[..|rows| - 1], i) + if last.outcome == i then last.amount else 0
  }

  lemma {:induction false} RowTotalFront(rows: seq<Row>, i: Side)
    requires rows != []
    ensures RowTotal(rows, i) == (if rows[0].outcome == i then rows[0].amount else 0) + RowTotal(rows[1..], i)
  {
    if |rows| == 1 {
      assert rows[..0] == rows[1..] == [];
    } else {
      assert rows[1..][..|rows| - 2] == rows[..|rows| - 1][1..];
      RowTotalFront(rows[..|rows| - 1], i);
    }
  }

  /** A batch of rows carries of each id the total of its outcome. */
  lemma {:induction false} BatchCarriesRows(rows: seq<Row>, pair: Pair, i: Side)
    requires pair.first != pair.second
    ensures BatchAmount(Ids(rows, pair), Amounts(rows), pair.Get(i)) == RowTotal(rows, i)
  {
    if rows != [] {
      RowTotalFront(rows, i);
      BatchCarriesRows(rows[1..], pair, i);
      assert Ids(rows, pair)[1..] == Ids(rows[1..], pair) && Amounts(rows)[1..] == Amounts(rows[1..]);
    }
  }

  /** What the rows add to each tracked balance. */
  ghost function DepositDelta(rows: seq<Row>, h: Holding): int {
    match h
    case OwnerLegacy(i) => 0 - RowTotal(rows, i)
    case ModuleLegacy(i) => RowTotal(rows, i)
    case OwnerV2(i) => RowTotal(rows, i)
    case _ => 0
  }

  lemma DepositRowMoves(s: State, row: Row, h: Holding)
    requires DepositRow(s, row).Some?
    ensures Held(DepositRow(s, row).value, h) == Held(s, h)
      + match h
        case OwnerLegacy(i) => if row.outcome == i then 0 - row.amount else 0
        case ModuleLegacy(i) => if row.outcome == i then row.amount else 0
        case OwnerV2(i) => if row.outcome == i then row.amount else 0
        case _ => 0
  {
    hide WordSpan;
  }

  lemma {:induction false} DepositMoves(s: State, rows: seq<Row>, h: Holding)
    requires Deposit(s, rows).Some?
    ensures Held(Deposit(s, rows).value, h) == Held(s, h) + DepositDelta(rows, h)
  {
    hide WordSpan, DepositRow, Held;
    if rows != [] {
      var front := rows[..|rows| - 1];
      DepositMoves(s, front, h);
      DepositRowMoves(Deposit(s, front).value, rows[|rows| - 1], h);
    }
  }

  // ----- settlement and sweep

  /** What a settlement that gives so much collateral takes from the module's positions. */
  ghost function SettleDelta(held: Pair, unresolved: bool, collateral: U256, h: Holding): int {
    match h
    case ModuleLegacy(i) => if unresolved then 0 - collateral else 0 - held.Get(i)
    case ModuleUsdce => collateral
    case CtfUsdce => 0 - collateral
    case _ => 0
  }

  lemma SettleMoves(s: State, branch: Branch, setup: Setup, h: Holding)
    requires Settle(s, branch, setup).Some?
    ensures var r := Settle(s, branch, setup).value;
      var collateral := if branch.Unresolved? then r.merged else r.redeemed;
      Held(r.next, h) == Held(s, h) + SettleDelta(s.moduleLegacy, branch.Unresolved?, collateral, h)
    ensures var r := Settle(s, branch, setup).value;
      r.next.resolved == s.resolved && (if branch.Unresolved? then r.redeemed == 0 else r.merged == 0)
  {
    hide WordSpan, CheckedMulDiv, MergeLogs, RedemptionLogs;
  }

  lemma SweepMoves(s: State, h: Holding)
    requires Sweep(s).Some?
    ensures Held(Sweep(s).value, h) == Held(s, h)
      + match h
        case ModuleUsdce => 0 - s.moduleUsdce
        case VaultUsdce => s.moduleUsdce
        case _ => 0
  {
    hide WordSpan;
  }

  // ----- one migration

  /** The change of every tracked balance, in terms of what the migration reports. */
  ghost function Delta(s: State, rows: seq<Row>, m: Migrated, h: Holding): int {
    match h
    case OwnerLegacy(i) => 0 - RowTotal(rows, i)
    case OwnerV2(i) => RowTotal(rows, i)
    case ModuleLegacy(i) =>
      if m.branch.Unresolved? then RowTotal(rows, i) - m.merged else 0 - s.moduleLegacy.Get(i)
    case ModuleUsdce => 0 - s.moduleUsdce
    case CtfUsdce => 0 - (m.merged + m.redeemed)
    case VaultUsdce => m.swept
    case OwnerPusd => 0
  }

  lemma MigrationMoves(s: State, rows: seq<Row>, setup: Setup, h: Holding)
    requires Migrate(s, rows, setup).Some?
    ensures var m := Migrate(s, rows, setup).value;
      && Held(m.next, h) == Held(s, h) + Delta(s, rows, m, h)
      && m.swept == s.moduleUsdce + m.merged + m.redeemed
  {
    hide WordSpan, Deposit, Settle, BranchOf, DepositLogs, RowLogs, ResolveLogs, SweepLogs, NormalizedFor, RowTotal;
    var deposited := Deposit(s, rows).value;
    var branch := BranchOf(s.resolved, setup).value;
    var start := deposited.(resolved := s.resolved || branch.FirstResolution?);
    var settled := Settle(start, branch, setup).value;
    DepositMoves(s, rows, h);
    DepositMoves(s, rows, ModuleUsdce);
    if h.ModuleLegacy? { DepositMoves(s, rows, ModuleLegacy(h.side)); }
    SettleMoves(start, branch, setup, h);
    SettleMoves(start, branch, setup, ModuleUsdce);
    SweepMoves(settled.next, h);
  }

  /** A migration keeps, of each outcome, the owner's legacy and new positions together; it keeps
      the collateral of module, CTF and vault together, and leaves none with the module. */
  lemma MigrationConserves(s: State, rows: seq<Row>, setup: Setup, i: Side)
    requires Migrate(s, rows, setup).Some?
    ensures var next := Migrate(s, rows, setup).value.next;
      && next.ownerLegacy.Get(i) + next.ownerV2.Get(i) == s.ownerLegacy.Get(i) + s.ownerV2.Get(i)
      && next.moduleUsdce + next.ctfUsdce + next.vaultUsdce == s.moduleUsdce + s.ctfUsdce + s.vaultUsdce
      && next.moduleUsdce == 0 && next.ownerPusd == s.ownerPusd
  {
    hide Migrate;
    MigrationMoves(s, rows, setup, OwnerLegacy(i));
    MigrationMoves(s, rows, setup, OwnerV2(i));
    MigrationMoves(s, rows, setup, ModuleUsdce);
    MigrationMoves(s, rows, setup, CtfUsdce);
    MigrationMoves(s, rows, setup, VaultUsdce);
    MigrationMoves(s, rows, setup, OwnerPusd);
  }

  /** It never leaves a complete set with the module, and leaves nothing once resolved. */
  lemma MigrationLeavesNoSet(s: State, rows: seq<Row>, setup: Setup)
    requires Migrate(s, rows, setup).Some?
    ensures var m := Migrate(s, rows, setup).value;
      && (m.next.moduleLegacy.first == 0 || m.next.moduleLegacy.second == 0)
      && (!m.branch.Unresolved? ==> m.next.moduleLegacy == Pair(0, 0))
      && (m.next.resolved <==> !m.branch.Unresolved?)
  {
    hide WordSpan, Deposit, DepositLogs, RowLogs, ResolveLogs, SweepLogs, NormalizedFor, Normalize, CheckedMulDiv;
    hide MergeLogs, RedemptionLogs;
    DepositKeepsResult(s, rows);
  }

  /** Once results are known, everything the module then holds is redeemed: each outcome pays its
      share of the CTF's payout vector, rounded down on its own. */
  lemma ResolvedRedeemsFloors(s: State, rows: seq<Row>, setup: Setup)
    requires Migrate(s, rows, setup).Some? && !Migrate(s, rows, setup).value.branch.Unresolved?
    ensures setup.denominator > 0
    ensures Migrate(s, rows, setup).value.redeemed
      == (s.moduleLegacy.first + RowTotal(rows, 0)) * setup.numerators.first / setup.denominator
         + (s.moduleLegacy.second + RowTotal(rows, 1)) * setup.numerators.second / setup.denominator
  {
    hide WordSpan, Deposit, DepositLogs, RowLogs, ResolveLogs, SweepLogs, NormalizedFor, Normalize, RedemptionLogs;
    hide RowTotal;
    DepositMoves(s, rows, ModuleLegacy(0));
    DepositMoves(s, rows, ModuleLegacy(1));
  }

  // ----- the logs of a migration against its record

  lemma LogsLaws(h: Holding, setup: Setup)
    ensures LogsMove([], h, setup) == 0
    ensures forall log {:trigger LogsMove([log], h, setup)} ::
              LogsMove([log], h, setup) == Step(log, HolderOf(h, setup), AssetFor(h, setup))
    ensures forall a: seq<Log>, b: seq<Log> {:trigger LogsMove(a + b, h, setup)} ::
              LogsMove(a + b, h, setup) == LogsMove(a, h, setup) + LogsMove(b, h, setup)
  {
    hide Net, Step;
    NetLaws(HolderOf(h, setup), AssetFor(h, setup));
  }

  lemma DepositLogsMove(rows: seq<Row>, setup: Setup, h: Holding)
    requires setup.Separate()
    ensures LogsMove(DepositLogs(rows, setup), h, setup) == DepositDelta(rows, h)
  {
    hide WordSpan, LogsMove, RowTotal, BatchAmount, Ids, Amounts;
    var logs := DepositLogs(rows, setup);
    LogsLaws(h, setup);
    assert logs == [logs[0]] + [logs[1]];
    if h.OwnerLegacy? || h.ModuleLegacy? { BatchCarriesRows(rows, setup.legacyIds, h.side); }
    if h.OwnerV2? { BatchCarriesRows(rows, setup.v2Ids, h.side); }
  }

  lemma {:induction false} RowLogsMoveNothing(rows: seq<Row>, setup: Setup, h: Holding)
    ensures LogsMove(RowLogs(rows, setup), h, setup) == 0
  {
    hide WordSpan, LogsMove;
    LogsLaws(h, setup);
    if rows != [] {
      RowLogsMoveNothing(rows[..|rows| - 1], setup, h);
    }
  }

  lemma ResolveLogsMoveNothing(branch: Branch, setup: Setup, h: Holding)
    ensures LogsMove(ResolveLogs(branch, setup), h, setup) == 0
  {
    hide WordSpan, LogsMove, NormalizedFor;
    LogsLaws(h, setup);
    var logs := ResolveLogs(branch, setup);
    if logs != [] {
      assert logs == [logs[0]] + [logs[1]] + [logs[2]];
    }
  }

  lemma SweepLogsMove(amount: U256, setup: Setup, h: Holding)
    requires setup.Separate()
    ensures LogsMove(SweepLogs(amount, setup), h, setup)
      == match h case ModuleUsdce => 0 - amount case VaultUsdce => amount case _ => 0
  {
    hide WordSpan, LogsMove;
    LogsLaws(h, setup);
    var logs := SweepLogs(amount, setup);
    if logs != [] {
      assert logs == [logs[0]] + [logs[1]];
    }
  }

  lemma MergeLogsMove(amount: U256, setup: Setup, h: Holding)
    requires setup.Separate()
    ensures LogsMove(MergeLogs(amount, setup), h, setup) == SettleDelta(Pair(0, 0), true, amount, h)
  {
    hide WordSpan, LogsMove, BatchAmount;
    LogsLaws(h, setup);
    var logs := MergeLogs(amount, setup);
    if logs != [] {
      assert logs == [logs[0]] + [logs[1]] + [logs[2]];
      if h.OwnerLegacy? || h.ModuleLegacy? { PairAmount(setup.legacyIds, amount, h.side); }
    }
  }

  lemma PairAmount(ids: Pair, amount: U256, i: Side)
    requires ids.first != ids.second
    ensures BatchAmount([ids.first, ids.second], [amount, amount], ids.Get(i)) == amount
  {
    var id := ids.Get(i);
    assert [ids.first, ids.second][1..] == [ids.second] && [amount, amount][1..] == [amount];
    assert BatchAmount([ids.second], [amount], id) == if ids.second == id then amount else 0;
  }

  lemma BurnLogsMove(held: Pair, i: Side, setup: Setup, h: Holding)
    requires setup.Separate()
    ensures LogsMove(BurnLogs(held, i, setup), h, setup)
      == if h.ModuleLegacy? && h.side == i then 0 - held.Get(i) else 0
  {
    hide WordSpan, LogsMove;
    LogsLaws(h, setup);
  }

  lemma RedemptionLogsMove(held: Pair, total: U256, setup: Setup, h: Holding)
    requires setup.Separate()
    ensures LogsMove(RedemptionLogs(held, total, setup), h, setup) == SettleDelta(held, false, total, h)
  {
    hide WordSpan, LogsMove, BurnLogs;
    LogsLaws(h, setup);
    BurnLogsMove(held, 0, setup, h);
    BurnLogsMove(held, 1, setup, h);
  }

  lemma SettleLogsMove(s: State, branch: Branch, setup: Setup, h: Holding)
    requires setup.Separate() && Settle(s, branch, setup).Some?
    ensures LogsMove(Settle(s, branch, setup).value.logs, h, setup)
      == Held(Settle(s, branch, setup).value.next, h) - Held(s, h)
  {
    hide WordSpan, LogsMove, MergeLogs, RedemptionLogs, RedemptionOf, Merge, Redeem, Held;
    SettleMoves(s, branch, setup, h);
    if branch.Unresolved? {
      MergeLogsMove(Min(s.moduleLegacy.first, s.moduleLegacy.second), setup, h);
    } else {
      RedemptionLogsMove(s.moduleLegacy, RedemptionOf(s.moduleLegacy, setup).value, setup, h);
    }
  }

  /** The expected logs of a migration move every tracked balance as the record does. */
  lemma MigrationLogsMove(s: State, rows: seq<Row>, setup: Setup, h: Holding)
    requires setup.Separate() && Migrate(s, rows, setup).Some?
    ensures var m := Migrate(s, rows, setup).value;
      LogsMove(m.logs, h, setup) == Held(m.next, h) - Held(s, h)
  {
    hide WordSpan, Deposit, Settle, BranchOf, DepositLogs, RowLogs, ResolveLogs, SweepLogs, NormalizedFor, RowTotal;
    hide LogsMove;
    var deposited := Deposit(s, rows).value;
    var branch := BranchOf(s.resolved, setup).value;
    var start := deposited.(resolved := s.resolved || branch.FirstResolution?);
    var settled := Settle(start, branch, setup).value;
    LogsLaws(h, setup);
    DepositMoves(s, rows, h);
    DepositLogsMove(rows, setup, h);
    ResolveLogsMoveNothing(branch, setup, h);
    SettleLogsMove(start, branch, setup, h);
    RowLogsMoveNothing(rows, setup, h);
    SweepMoves(settled.next, h);
    SweepLogsMove(settled.next.moduleUsdce, setup, h);
  }
}
