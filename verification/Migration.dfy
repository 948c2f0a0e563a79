/** Replays the migration of legacy positions: each migration deposits legacy positions, mints as
    many new ones, turns what it can of the deposits into collateral and sweeps that to a vault. */
module Migration {
  import opened Words
  import opened Ledger

  datatype Row = Row(outcome: Side, amount: U256)

  datatype Branch = Unresolved | FirstResolution | StoredResolved

  /** What is read once, at the opening, and then holds for the interval. */
  datatype Setup = Setup(
    owner: Address, module_: Address, ctf: Address, usdce: Address, vault: Address,
    legacyIds: Pair, v2Ids: Pair, condition: Hash, legacyCondition: Hash,
    numerators: Pair, denominator: U256, resolvedBinary: bool, pause: U256)
  {
    /** The accounts, and the ids of a pair, are different from each other. */
    predicate Separate() {
      && legacyIds.first != legacyIds.second && v2Ids.first != v2Ids.second
      && owner != module_ && owner != ctf && owner != vault && owner != ZERO_ADDRESS
      && module_ != ctf && module_ != vault && module_ != ZERO_ADDRESS
      && ctf != vault && ctf != ZERO_ADDRESS && vault != ZERO_ADDRESS
    }
  }

  datatype State = State(
    ownerLegacy: Pair, moduleLegacy: Pair, ownerV2: Pair, ownerPusd: U256,
    moduleUsdce: U256, ctfUsdce: U256, vaultUsdce: U256, resolved: bool)

  /** The balances that the replay tracks. */
  datatype Holding =
    | OwnerLegacy(side: Side) | ModuleLegacy(side: Side) | OwnerV2(side: Side)
    | OwnerPusd | ModuleUsdce | CtfUsdce | VaultUsdce

  function Held(s: State, h: Holding): U256 {
    match h
    case OwnerLegacy(i) => s.ownerLegacy.Get(i)
    case ModuleLegacy(i) => s.moduleLegacy.Get(i)
    case OwnerV2(i) => s.ownerV2.Get(i)
    case OwnerPusd => s.ownerPusd
    case ModuleUsdce => s.moduleUsdce
    case CtfUsdce => s.ctfUsdce
    case VaultUsdce => s.vaultUsdce
  }

  /** What one migration does. */
  datatype Migrated = Migrated(
    next: State, branch: Branch, merged: U256, redeemed: U256, swept: U256, normalized: Option<Pair>,
    logs: seq<Log>)

  // ----- the steps of one migration

  function DepositRow(s: State, row: Row): Option<State> {
    var i, amount := row.outcome, row.amount;
    var legacy :- CheckedSub(s.ownerLegacy.Get(i), amount);
    var deposited :- CheckedAdd(s.moduleLegacy.Get(i), amount);
    var minted :- CheckedAdd(s.ownerV2.Get(i), amount);
    Some(s.(ownerLegacy := s.ownerLegacy.With(i, legacy), moduleLegacy := s.moduleLegacy.With(i, deposited),
            ownerV2 := s.ownerV2.With(i, minted)))
  }

  function Deposit(s: State, rows: seq<Row>): Option<State> {
    if rows == [] then
      Some(s)
    else
      var before :- Deposit(s, rows[..|rows| - 1]);
      DepositRow(before, rows[|rows| - 1])
  }

  /** Legacy payouts scaled to a million; the second share is what the first leaves. */
  function Normalize(raw: Pair): Option<Pair> {
    var sum :- CheckedAdd(raw.first, raw.second);
    if sum == 0 then
      None
    else
      var scaled :- CheckedMul(raw.first, 1_000_000);
      var first :- CheckedDiv(scaled, sum);
      var second :- CheckedSub(1_000_000, first);
      Some(Pair(first, second))
  }

  function BranchOf(resolved: bool, setup: Setup): Option<Branch> {
    var sum :- CheckedAdd(setup.numerators.first, setup.numerators.second);
    if sum == 0 then
      if resolved then None else Some(Unresolved)
    else if !setup.resolvedBinary || setup.denominator == 0 then
      None
    else if resolved then
      Some(StoredResolved)
    else if setup.pause != 0 || Normalize(setup.numerators).None? then
      None
    else
      Some(FirstResolution)
  }

  /** Merges complete sets that the module holds; missing when the collateral is not there. */
  function Merge(s: State, amount: U256): Option<State> {
    var first :- CheckedSub(s.moduleLegacy.first, amount);
    var second :- CheckedSub(s.moduleLegacy.second, amount);
    var ctf :- CheckedSub(s.ctfUsdce, amount);
    var module_ :- CheckedAdd(s.moduleUsdce, amount);
    Some(s.(moduleLegacy := Pair(first, second), ctfUsdce := ctf, moduleUsdce := module_))
  }

  /** What both of the module's positions redeem for, each rounded down. */
  function RedemptionOf(held: Pair, setup: Setup): Option<U256> {
    var first :- CheckedMulDiv(held.first, setup.numerators.first, setup.denominator);
    var second :- CheckedMulDiv(held.second, setup.numerators.second, setup.denominator);
    CheckedAdd(first, second)
  }

  function Redeem(s: State, total: U256): Option<State> {
    var ctf :- CheckedSub(s.ctfUsdce, total);
    var module_ :- CheckedAdd(s.moduleUsdce, total);
    Some(s.(moduleLegacy := Pair(0, 0), ctfUsdce := ctf, moduleUsdce := module_))
  }

  function Sweep(s: State): Option<State> {
    var vault :- CheckedAdd(s.vaultUsdce, s.moduleUsdce);
    Some(s.(moduleUsdce := 0, vaultUsdce := vault))
  }

  // ----- the logs of one migration

  function Transfer(from: Address, to: Address, amount: U256): Log { Moved(Cash(Usdce, from, to, amount)) }

  function Ids(rows: seq<Row>, pair: Pair): (r: seq<U256>)
    ensures |r| == |rows|
  {
    if rows == [] then [] else [pair.Get(rows[0].outcome)] + Ids(rows[1..], pair)
  }

  function Amounts(rows: seq<Row>): (r: seq<U256>)
    ensures |r| == |rows|
  {
    if rows == [] then [] else [rows[0].amount] + Amounts(rows[1..])
  }

  function DepositLogs(rows: seq<Row>, setup: Setup): seq<Log> {
    var amounts := Amounts(rows);
    [Moved(Batch(ConditionalTokens, setup.module_, setup.owner, setup.module_, Ids(rows, setup.legacyIds), amounts)),
     Moved(Batch(PositionManager, setup.module_, ZERO_ADDRESS, setup.owner, Ids(rows, setup.v2Ids), amounts))]
  }

  function ResolutionLogs(normalized: Pair, setup: Setup): seq<Log> {
    var n := [normalized.first, normalized.second];
    [Noted(Emitted(setup.module_, ResultStored, [setup.condition] + n)),
     Noted(Emitted(setup.module_, ResultReported, [setup.module_, setup.condition] + n)),
     Noted(Emitted(setup.module_, LegacyResolved,
                   [setup.condition, setup.legacyCondition, setup.numerators.first, setup.numerators.second] + n))]
  }

  function MergeLogs(amount: U256, setup: Setup): seq<Log> {
    if amount == 0 then
      []
    else
      [Moved(Batch(ConditionalTokens, setup.module_, setup.module_, ZERO_ADDRESS,
                   [setup.legacyIds.first, setup.legacyIds.second], [amount, amount])),
       Transfer(setup.ctf, setup.module_, amount),
       Noted(OfCtf(SetMerged(setup.module_, setup.usdce, 0, setup.legacyCondition, [1, 2], amount)))]
  }

  function BurnLogs(held: Pair, i: Side, setup: Setup): seq<Log> {
    var id, amount := setup.legacyIds.Get(i), held.Get(i);
    if amount == 0 then
      []
    else
      [Moved(Single(ConditionalTokens, setup.module_, setup.module_, ZERO_ADDRESS, id, amount))]
  }

  function RedemptionLogs(held: Pair, total: U256, setup: Setup): seq<Log> {
    BurnLogs(held, 0, setup) + BurnLogs(held, 1, setup)
    + (if total == 0 then [] else [Transfer(setup.ctf, setup.module_, total)])
    + [Noted(OfCtf(PayoutRedeemed(setup.module_, setup.usdce, 0, setup.legacyCondition, [1, 2], total)))]
  }

  function RowLogs(rows: seq<Row>, setup: Setup): seq<Log> {
    if rows == [] then
      []
    else
      var last := rows[|rows| - 1];
      RowLogs(rows[..|rows| - 1], setup)
      + [Noted(Emitted(setup.module_, PositionMigrated,
                       [setup.owner, setup.condition, setup.v2Ids.Get(last.outcome), last.outcome, last.amount]))]
  }

  function SweepLogs(amount: U256, setup: Setup): seq<Log> {
    if amount == 0 then
      []
    else
      [Transfer(setup.module_, setup.vault, amount),
       Noted(Emitted(setup.module_, CollateralSettled, [setup.usdce, setup.vault, amount]))]
  }

  // ----- one migration

  /** What becomes of the deposited positions: nothing to be redeemed yet means a merge. */
  datatype Settled = Settled(next: State, merged: U256, redeemed: U256, logs: seq<Log>)

  function Settle(s: State, branch: Branch, setup: Setup): Option<Settled> {
    if branch.Unresolved? then
      var amount := Min(s.moduleLegacy.first, s.moduleLegacy.second);
      var next :- Merge(s, amount);
      Some(Settled(next, amount, 0, MergeLogs(amount, setup)))
    else
      var total :- RedemptionOf(s.moduleLegacy, setup);
      var next :- Redeem(s, total);
      Some(Settled(next, 0, total, RedemptionLogs(s.moduleLegacy, total, setup)))
  }

  function NormalizedFor(branch: Branch, setup: Setup): Option<Pair> {
    if branch.FirstResolution? then Normalize(setup.numerators) else None
  }

  function ResolveLogs(branch: Branch, setup: Setup): seq<Log> {
    match NormalizedFor(branch, setup)
    case Some(normalized) => ResolutionLogs(normalized, setup)
    case None => []
  }

  function Migrate(s: State, rows: seq<Row>, setup: Setup): Option<Migrated> {
    var deposited :- Deposit(s, rows);
    var branch :- BranchOf(s.resolved, setup);
    var settled :- Settle(deposited.(resolved := s.resolved || branch.FirstResolution?), branch, setup);
    var swept := settled.next.moduleUsdce;
    var next :- Sweep(settled.next);
    Some(Migrated(next, branch, settled.merged, settled.redeemed, swept, NormalizedFor(branch, setup),
                  DepositLogs(rows, setup) + ResolveLogs(branch, setup) + settled.logs + RowLogs(rows, setup)
                  + SweepLogs(swept, setup)))
  }

  // ----- transfers that have nothing to do with a migration

  /** A collateral transfer past the module: it may only touch the CTF and the vault. */
  function PassTransfer(s: State, from: Address, to: Address, amount: U256, setup: Setup): Option<State> {
    if from == setup.module_ || to == setup.module_ then
      None
    else
      var ctf :- if from == setup.ctf then CheckedSub(s.ctfUsdce, amount) else Some(s.ctfUsdce);
      var vault :- if from == setup.vault then CheckedSub(s.vaultUsdce, amount) else Some(s.vaultUsdce);
      var ctfAfter :- if to == setup.ctf then CheckedAdd(ctf, amount) else Some(ctf);
      var vaultAfter :- if to == setup.vault then CheckedAdd(vault, amount) else Some(vault);
      Some(s.(ctfUsdce := ctfAfter, vaultUsdce := vaultAfter))
  }

  function PassLog(s: State, log: Log, setup: Setup): Option<State> {
    match log
    case Moved(Cash(Usdce, from, to, amount)) => PassTransfer(s, from, to, amount, setup)
    case Moved(Undecodable(FromToken(Usdce))) => None
    case _ => Some(s)
  }

  function PassLogs(s: State, logs: seq<Log>, setup: Setup): Option<State> {
    if logs == [] then
      Some(s)
    else
      var before :- PassLogs(s, logs[..|logs| - 1], setup);
      PassLog(before, logs[|logs| - 1], setup)
  }

  // ----- the program's own loops, on a record that they update

  class Replay {
    var ownerLegacy: Pair
    var moduleLegacy: Pair
    var ownerV2: Pair
    var ownerPusd: U256
    var moduleUsdce: U256
    var ctfUsdce: U256
    var vaultUsdce: U256
    var resolved: bool

    function View(): State
      reads this
    {
      State(ownerLegacy, moduleLegacy, ownerV2, ownerPusd, moduleUsdce, ctfUsdce, vaultUsdce, resolved)
    }

    constructor (s: State)
      ensures View() == s
    {
      ownerLegacy, moduleLegacy, ownerV2, ownerPusd := s.ownerLegacy, s.moduleLegacy, s.ownerV2, s.ownerPusd;
      moduleUsdce, ctfUsdce, vaultUsdce, resolved := s.moduleUsdce, s.ctfUsdce, s.vaultUsdce, s.resolved;
    }

    /** Deposits the rows one by one. */
    method DepositRows(rows: seq<Row>) returns (ok: bool)
      modifies this
      ensures ok <==> Deposit(old(View()), rows).Some?
      ensures ok ==> View() == Deposit(old(View()), rows).value
    {
      hide WordSpan, Deposit;
      ghost var start := View();
      NothingDeposited(start);
      assert rows[..0] == [];
      for n := 0 to |rows|
        invariant Deposit(start, rows[..n]) == Some(View())
      {
        var row := rows[n];
        DepositedOneMore(start, rows, n);
        var i := row.outcome;
        var legacy := CheckedSub(ownerLegacy.Get(i), row.amount);
        var deposited := CheckedAdd(moduleLegacy.Get(i), row.amount);
        var minted := CheckedAdd(ownerV2.Get(i), row.amount);
        if legacy.None? || deposited.None? || minted.None? {
          MissingStays(start, rows, n + 1);
          return false;
        }
        ownerLegacy := ownerLegacy.With(i, legacy.value);
        moduleLegacy := moduleLegacy.With(i, deposited.value);
        ownerV2 := ownerV2.With(i, minted.value);
      }
      assert rows[..|rows|] == rows;
      ok := true;
    }

    /** The whole migration, in place; on a refusal the record is of no further use. */
    method Run(rows: seq<Row>, setup: Setup) returns (r: Option<Migrated>)
      modifies this
      ensures r.Some? <==> Migrate(old(View()), rows, setup).Some?
      ensures r.Some? ==> r == Migrate(old(View()), rows, setup) && View() == r.value.next
    {
      hide WordSpan, Deposit, DepositLogs, ResolveLogs, RowLogs, SweepLogs, Normalize, RedemptionOf, CheckedMulDiv;
      hide Merge, Redeem, RedemptionLogs, MergeLogs, NormalizedFor, BranchOf;
      ghost var start := View();
      var ok := DepositRows(rows);
      if !ok { return None; }
      var branch := BranchOf(resolved, setup);
      assert resolved == start.resolved by { DepositKeepsResult(start, rows); }
      if branch.None? { return None; }
      resolved := resolved || branch.value.FirstResolution?;
      var settled := Settle(View(), branch.value, setup);
      if settled.None? { return None; }
      Write(settled.value.next);
      var swept := moduleUsdce;
      var vault := CheckedAdd(vaultUsdce, swept);
      if vault.None? { return None; }
      moduleUsdce, vaultUsdce := 0, vault.value;
      r := Some(Migrated(View(), branch.value, settled.value.merged, settled.value.redeemed, swept,
                         NormalizedFor(branch.value, setup),
                         DepositLogs(rows, setup) + ResolveLogs(branch.value, setup) + settled.value.logs
                         + RowLogs(rows, setup) + SweepLogs(swept, setup)));
    }

    /** Applies every collateral transfer of an unrelated transaction, in order. */
    method ApplyUnrelated(logs: seq<Log>, setup: Setup) returns (ok: bool)
      modifies this
      ensures ok <==> PassLogs(old(View()), logs, setup).Some?
      ensures ok ==> View() == PassLogs(old(View()), logs, setup).value
    {
      ghost var start := View();
      assert logs[..0] == [];
      for n := 0 to |logs|
        invariant PassLogs(start, logs[..n], setup) == Some(View())
      {
        hide WordSpan, PassLog;
        assert logs[..n + 1][..n] == logs[..n];
        var next := PassLog(View(), logs[n], setup);
        if next.None? {
          BlockedStays(start, logs, setup, n + 1);
          return false;
        }
        Write(next.value);
      }
      assert logs[..|logs|] == logs;
      ok := true;
    }

    method Write(s: State)
      modifies this
      ensures View() == s
    {
      ownerLegacy, moduleLegacy, ownerV2, ownerPusd := s.ownerLegacy, s.moduleLegacy, s.ownerV2, s.ownerPusd;
      moduleUsdce, ctfUsdce, vaultUsdce, resolved := s.moduleUsdce, s.ctfUsdce, s.vaultUsdce, s.resolved;
    }
  }

  lemma NothingDeposited(s: State)
    ensures Deposit(s, []) == Some(s)
  {
  }

  lemma DepositedOneMore(s: State, rows: seq<Row>, n: nat)
    requires n < |rows| && Deposit(s, rows[..n]).Some?
    ensures Deposit(s, rows[..n + 1]) == DepositRow(Deposit(s, rows[..n]).value, rows[n])
  {
    hide DepositRow;
    assert rows[..n + 1][..n] == rows[..n];
  }

  lemma {:induction false} MissingStays(s: State, rows: seq<Row>, n: nat)
    requires n <= |rows| && Deposit(s, rows[..n]).None?
    ensures Deposit(s, rows).None?
    decreases |rows| - n
  {
    hide DepositRow;
    if n == |rows| {
      assert rows[..n] == rows;
    } else {
      assert rows[..n + 1][..n] == rows[..n];
      MissingStays(s, rows, n + 1);
    }
  }

  lemma {:induction false} BlockedStays(s: State, logs: seq<Log>, setup: Setup, n: nat)
    requires n <= |logs| && PassLogs(s, logs[..n], setup).None?
    ensures PassLogs(s, logs, setup).None?
    decreases |logs| - n
  {
    hide PassLog;
    if n == |logs| {
      assert logs[..n] == logs;
    } else {
      assert logs[..n + 1][..n] == logs[..n];
      BlockedStays(s, logs, setup, n + 1);
    }
  }

  lemma {:induction false} DepositKeepsResult(s: State, rows: seq<Row>)
    requires Deposit(s, rows).Some?
    ensures Deposit(s, rows).value.resolved == s.resolved
  {
    hide WordSpan;
    if rows != [] {
      DepositKeepsResult(s, rows[..|rows| - 1]);
    }
  }
}
