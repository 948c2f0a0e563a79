/** Which migrations a replay accepts and what they leave, from the totals of their rows alone. */
module MigrationAcceptance {
  import opened Words
  import opened Ledger
  import opened Receipts
  import opened Migration
  import opened MigrationLaws
  import opened MigrationInterval
  import opened MigrationTheorems
  import MigrationCodec

  // ----- the condition

  /** Of one outcome, the owner holds what is migrated, and module and owner can take it. */
  ghost predicate OutcomeFits(s: State, total: nat, i: Side) {
    && total <= s.ownerLegacy.Get(i)
    && s.moduleLegacy.Get(i) + total < WordSpan()
    && s.ownerV2.Get(i) + total < WordSpan()
  }

  ghost predicate RowsFit(s: State, rows: seq<Row>) {
    OutcomeFits(s, RowTotal(rows, 0), 0) && OutcomeFits(s, RowTotal(rows, 1), 1)
  }

  /** No payout and no stored result; or a resolved binary condition whose result is stored or can
      be stored now. */
  ghost predicate ResultReady(resolved: bool, setup: Setup) {
    var a, b := setup.numerators.first, setup.numerators.second;
    if a == 0 && b == 0 then
      !resolved
    else
      && a + b < WordSpan() && setup.resolvedBinary && setup.denominator > 0
      && (resolved || (setup.pause == 0 && a * 1_000_000 < WordSpan()))
  }

  /** What the module then holds of an outcome. */
  ghost function Pooled(s: State, rows: seq<Row>, i: Side): nat { s.moduleLegacy.Get(i) + RowTotal(rows, i) }

  ghost predicate ProductsFit(s: State, rows: seq<Row>, setup: Setup) {
    && Pooled(s, rows, 0) * setup.numerators.first < WordSpan()
    && Pooled(s, rows, 1) * setup.numerators.second < WordSpan()
  }

  /** The floor of so many parts of an amount. */
  ghost function Share(amount: nat, part: nat, whole: nat): nat
    requires whole > 0
  {
    amount * part / whole
  }

  /** The collateral that the CTF gives: complete sets at par, or each outcome at its floor. */
  ghost function Collateral(s: State, rows: seq<Row>, setup: Setup): nat
    requires NoPayouts(setup) || setup.denominator > 0
  {
    var x, y := Pooled(s, rows, 0), Pooled(s, rows, 1);
    if NoPayouts(setup) then
      if x <= y then x else y
    else
      Share(x, setup.numerators.first, setup.denominator) + Share(y, setup.numerators.second, setup.denominator)
  }

  ghost predicate CanMigrate(s: State, rows: seq<Row>, setup: Setup) {
    && RowsFit(s, rows) && ResultReady(s.resolved, setup)
    && (!NoPayouts(setup) ==> ProductsFit(s, rows, setup))
    && Collateral(s, rows, setup) <= s.ctfUsdce
    && s.vaultUsdce + s.moduleUsdce + Collateral(s, rows, setup) < WordSpan()
  }

  /** The balances and the result that such a migration leaves. */
  ghost predicate Lands(next: State, s: State, rows: seq<Row>, setup: Setup)
    requires NoPayouts(setup) || setup.denominator > 0
  {
    var collateral := Collateral(s, rows, setup);
    && (forall i: Side ::
          && next.ownerLegacy.Get(i) == s.ownerLegacy.Get(i) - RowTotal(rows, i)
          && next.ownerV2.Get(i) == s.ownerV2.Get(i) + RowTotal(rows, i)
          && next.moduleLegacy.Get(i) == if NoPayouts(setup) then Pooled(s, rows, i) - collateral else 0)
    && next.ownerPusd == s.ownerPusd && next.moduleUsdce == 0 && next.ctfUsdce == s.ctfUsdce - collateral
    && next.vaultUsdce == s.vaultUsdce + s.moduleUsdce + collateral
    && next.resolved == !NoPayouts(setup)
  }

  // ----- deposits

  lemma {:induction false} DepositIsAccepted(s: State, rows: seq<Row>)
    ensures Deposit(s, rows).Some? <==> RowsFit(s, rows)
  {
    hide WordSpan, DepositRow;
    if rows == [] {
    } else {
      var front, last := rows[..|rows| - 1], rows[|rows| - 1];
      DepositIsAccepted(s, front);
      if Deposit(s, front).Some? {
        var before := Deposit(s, front).value;
        DepositMoves(s, front, OwnerLegacy(last.outcome));
        DepositMoves(s, front, ModuleLegacy(last.outcome));
        DepositMoves(s, front, OwnerV2(last.outcome));
        RowIsAccepted(before, last);
      }
    }
  }

  lemma RowIsAccepted(s: State, row: Row)
    ensures DepositRow(s, row).Some? <==> OutcomeFits(s, row.amount, row.outcome)
  {
    hide WordSpan;
  }

  // ----- the result

  lemma NormalizeIsAccepted(raw: Pair)
    requires raw != Pair(0, 0) && raw.first + raw.second < WordSpan()
    ensures Normalize(raw).Some? <==> raw.first * 1_000_000 < WordSpan()
  {
    hide WordSpan;
    var sum := raw.first + raw.second;
    if raw.first * 1_000_000 < WordSpan() {
      QuotientBound(raw.first * 1_000_000, sum, 1_000_000);
    }
  }

  lemma QuotientBound(n: nat, d: nat, q: nat)
    requires d > 0 && n <= d * q
    ensures n / d <= q
  {
    if n / d > q {
      ProductMonotone(d, q + 1, n / d);
    }
  }

  lemma ProductMonotone(d: nat, a: nat, b: nat)
    requires a <= b
    ensures d * a <= d * b
  {
  }

  lemma BranchIsAccepted(resolved: bool, setup: Setup)
    ensures BranchOf(resolved, setup).Some? <==> ResultReady(resolved, setup)
    ensures BranchOf(resolved, setup).Some? ==> (BranchOf(resolved, setup).value.Unresolved? <==> NoPayouts(setup))
  {
    hide WordSpan, Normalize;
    if !NoPayouts(setup) && setup.numerators.first + setup.numerators.second < WordSpan() {
      NormalizeIsAccepted(setup.numerators);
    }
  }

  // ----- settlement

  lemma MulDivIsAccepted(left: U256, right: U256, whole: U256)
    requires whole > 0
    ensures CheckedMulDiv(left, right, whole).Some? <==> left * right < WordSpan()
    ensures left * right < WordSpan() ==> CheckedMulDiv(left, right, whole).value == Share(left, right, whole)
  {
    hide WordSpan;
  }

  lemma RedemptionIsAccepted(held: Pair, setup: Setup, total: nat)
    requires setup.denominator > 0
    requires total == Share(held.first, setup.numerators.first, setup.denominator)
                    + Share(held.second, setup.numerators.second, setup.denominator)
    ensures RedemptionOf(held, setup).Some? <==>
      && held.first * setup.numerators.first < WordSpan() && held.second * setup.numerators.second < WordSpan()
      && total < WordSpan()
    ensures RedemptionOf(held, setup).Some? ==> RedemptionOf(held, setup).value == total
  {
    hide WordSpan, CheckedMulDiv, Share;
    MulDivIsAccepted(held.first, setup.numerators.first, setup.denominator);
    MulDivIsAccepted(held.second, setup.numerators.second, setup.denominator);
  }

  /** What the settlement and the sweep leave of a record. */
  ghost predicate SettlesFor(s: State, branch: Branch, setup: Setup, left: Pair, collateral: nat)
  {
    var r := Settle(s, branch, setup);
    && (r.Some? && Sweep(r.value.next).Some? <==>
        collateral <= s.ctfUsdce && s.vaultUsdce + s.moduleUsdce + collateral < WordSpan())
    && (r.Some? && Sweep(r.value.next).Some? ==>
        Sweep(r.value.next).value
        == s.(moduleLegacy := left, moduleUsdce := 0, ctfUsdce := s.ctfUsdce - collateral,
              vaultUsdce := s.vaultUsdce + s.moduleUsdce + collateral))
  }

  lemma MergeSettles(s: State, branch: Branch, setup: Setup, least: U256)
    requires branch.Unresolved? && least == Min(s.moduleLegacy.first, s.moduleLegacy.second)
    ensures SettlesFor(s, branch, setup, Pair(s.moduleLegacy.first - least, s.moduleLegacy.second - least), least)
  {
    hide WordSpan, MergeLogs;
  }

  lemma RedemptionSettles(s: State, branch: Branch, setup: Setup, total: nat)
    requires !branch.Unresolved? && setup.denominator > 0
    requires total == Share(s.moduleLegacy.first, setup.numerators.first, setup.denominator)
                    + Share(s.moduleLegacy.second, setup.numerators.second, setup.denominator)
    requires s.moduleLegacy.first * setup.numerators.first < WordSpan()
    requires s.moduleLegacy.second * setup.numerators.second < WordSpan()
    ensures SettlesFor(s, branch, setup, Pair(0, 0), total)
  {
    RedemptionIsAccepted(s.moduleLegacy, setup, total);
    hide WordSpan, RedemptionLogs, RedemptionOf, Share;
  }

  // ----- the whole migration

  /** The record after the deposits, with the result that the branch stores. */
  ghost function Pooling(s: State, rows: seq<Row>, setup: Setup): State
    requires Deposit(s, rows).Some? && BranchOf(s.resolved, setup).Some?
  {
    Deposit(s, rows).value.(resolved := s.resolved || BranchOf(s.resolved, setup).value.FirstResolution?)
  }

  lemma PoolingHolds(s: State, rows: seq<Row>, setup: Setup)
    requires Deposit(s, rows).Some? && BranchOf(s.resolved, setup).Some?
    ensures var p := Pooling(s, rows, setup);
      && (forall i: Side ::
            && p.ownerLegacy.Get(i) == s.ownerLegacy.Get(i) - RowTotal(rows, i)
            && p.ownerV2.Get(i) == s.ownerV2.Get(i) + RowTotal(rows, i)
            && p.moduleLegacy.Get(i) == Pooled(s, rows, i))
      && p.ownerPusd == s.ownerPusd && p.moduleUsdce == s.moduleUsdce && p.ctfUsdce == s.ctfUsdce
      && p.vaultUsdce == s.vaultUsdce && p.resolved == !NoPayouts(setup)
  {
    hide WordSpan, Deposit, BranchOf, RowTotal;
    forall i: Side
      ensures var p := Pooling(s, rows, setup);
        && p.ownerLegacy.Get(i) == s.ownerLegacy.Get(i) - RowTotal(rows, i)
        && p.ownerV2.Get(i) == s.ownerV2.Get(i) + RowTotal(rows, i)
        && p.moduleLegacy.Get(i) == Pooled(s, rows, i)
    {
      DepositMoves(s, rows, OwnerLegacy(i));
      DepositMoves(s, rows, OwnerV2(i));
      DepositMoves(s, rows, ModuleLegacy(i));
    }
    DepositMoves(s, rows, OwnerPusd);
    DepositMoves(s, rows, ModuleUsdce);
    DepositMoves(s, rows, CtfUsdce);
    DepositMoves(s, rows, VaultUsdce);
    DepositKeepsResult(s, rows);
    BranchIsExpected(s.resolved, setup);
  }

  lemma MigrationIsSettled(s: State, rows: seq<Row>, setup: Setup)
    requires Deposit(s, rows).Some? && BranchOf(s.resolved, setup).Some?
    ensures var r := Settle(Pooling(s, rows, setup), BranchOf(s.resolved, setup).value, setup);
      && (Migrate(s, rows, setup).Some? <==> r.Some? && Sweep(r.value.next).Some?)
      && (Migrate(s, rows, setup).Some? ==> Migrate(s, rows, setup).value.next == Sweep(r.value.next).value)
  {
    hide WordSpan, Deposit, BranchOf, Settle, Sweep;
    hide DepositLogs, RowLogs, ResolveLogs, SweepLogs, NormalizedFor;
  }

  lemma PooledSettles(s: State, rows: seq<Row>, setup: Setup, left: Pair)
    requires Deposit(s, rows).Some? && BranchOf(s.resolved, setup).Some?
    requires NoPayouts(setup) || (setup.denominator > 0 && ProductsFit(s, rows, setup))
    requires forall i: Side ::
               left.Get(i) == if NoPayouts(setup) then Pooled(s, rows, i) - Collateral(s, rows, setup) else 0
    ensures SettlesFor(Pooling(s, rows, setup), BranchOf(s.resolved, setup).value, setup, left,
                       Collateral(s, rows, setup))
  {
    PoolingHolds(s, rows, setup);
    BranchIsExpected(s.resolved, setup);
    hide WordSpan, BranchOf, Deposit, SettlesFor, Share, Pooling, RowTotal, Pooled;
    var p, branch := Pooling(s, rows, setup), BranchOf(s.resolved, setup).value;
    assert p.moduleLegacy.Get(0) == Pooled(s, rows, 0) && p.moduleLegacy.Get(1) == Pooled(s, rows, 1);
    assert left.Get(0) == left.first && left.Get(1) == left.second;
    if NoPayouts(setup) {
      MergeSettles(p, branch, setup, Collateral(s, rows, setup));
    } else {
      RedemptionSettles(p, branch, setup, Collateral(s, rows, setup));
    }
  }

  lemma MisfitIsRefused(s: State, rows: seq<Row>, setup: Setup)
    requires Deposit(s, rows).Some? && BranchOf(s.resolved, setup).Some?
    requires !NoPayouts(setup) && setup.denominator > 0 && !ProductsFit(s, rows, setup)
    ensures Settle(Pooling(s, rows, setup), BranchOf(s.resolved, setup).value, setup).None?
  {
    PoolingHolds(s, rows, setup);
    BranchIsExpected(s.resolved, setup);
    hide WordSpan, BranchOf, Deposit, Share, Pooling, RowTotal, Pooled, RedemptionOf, RedemptionLogs;
    var p := Pooling(s, rows, setup);
    assert p.moduleLegacy.Get(0) == Pooled(s, rows, 0) && p.moduleLegacy.Get(1) == Pooled(s, rows, 1);
    RedemptionIsAccepted(p.moduleLegacy, setup,
                         Share(p.moduleLegacy.first, setup.numerators.first, setup.denominator)
                         + Share(p.moduleLegacy.second, setup.numerators.second, setup.denominator));
  }

  ghost function Left(s: State, rows: seq<Row>, setup: Setup): Pair
    requires Deposit(s, rows).Some? && BranchOf(s.resolved, setup).Some?
    requires NoPayouts(setup) || setup.denominator > 0
  {
    hide WordSpan, Share;
    PoolingHolds(s, rows, setup);
    var p := Pooling(s, rows, setup).moduleLegacy;
    if NoPayouts(setup) then
      assert p.Get(0) == Pooled(s, rows, 0) && p.Get(1) == Pooled(s, rows, 1);
      Pair(p.first - Collateral(s, rows, setup), p.second - Collateral(s, rows, setup))
    else
      Pair(0, 0)
  }

  /** With the deposits made and a branch taken, the rest is a matter of the collateral. */
  lemma PooledIsAccepted(s: State, rows: seq<Row>, setup: Setup)
    requires Deposit(s, rows).Some? && BranchOf(s.resolved, setup).Some?
    requires NoPayouts(setup) || (setup.denominator > 0 && ProductsFit(s, rows, setup))
    ensures Migrate(s, rows, setup).Some? <==>
      && Collateral(s, rows, setup) <= s.ctfUsdce
      && s.vaultUsdce + s.moduleUsdce + Collateral(s, rows, setup) < WordSpan()
    ensures Migrate(s, rows, setup).Some? ==> Lands(Migrate(s, rows, setup).value.next, s, rows, setup)
  {
    MigrationIsSettled(s, rows, setup);
    PoolingHolds(s, rows, setup);
    hide WordSpan, Deposit, BranchOf, Settle, Sweep, Migrate, Share, RowTotal, Pooling, Collateral, ProductsFit;
    var left := Left(s, rows, setup);
    PooledSettles(s, rows, setup, left);
  }

  /** A migration is accepted exactly when it can be, and leaves exactly these balances. */
  lemma MigrationIsAccepted(s: State, rows: seq<Row>, setup: Setup)
    ensures Migrate(s, rows, setup).Some? <==> CanMigrate(s, rows, setup)
    ensures Migrate(s, rows, setup).Some? ==> Lands(Migrate(s, rows, setup).value.next, s, rows, setup)
  {
    DepositIsAccepted(s, rows);
    BranchIsAccepted(s.resolved, setup);
    hide WordSpan, Deposit, BranchOf, RowsFit, Settle, Sweep, Share, Lands, Collateral, ProductsFit;
    hide DepositLogs, RowLogs, ResolveLogs, SweepLogs, NormalizedFor, Pooling;
    if Deposit(s, rows).Some? && BranchOf(s.resolved, setup).Some? {
      if NoPayouts(setup) || ProductsFit(s, rows, setup) {
        PooledIsAccepted(s, rows, setup);
      } else {
        MigrationIsSettled(s, rows, setup);
        MisfitIsRefused(s, rows, setup);
      }
    }
  }

  ghost function MigrationOf(s: State, rows: seq<Row>, setup: Setup): Migrated
    requires CanMigrate(s, rows, setup)
  {
    hide Migrate;
    MigrationIsAccepted(s, rows, setup);
    Migrate(s, rows, setup).value
  }

  /** The first share of a million is rounded down and the second is the rest. */
  ghost predicate IsNormalized(n: Pair, raw: Pair)
    requires raw != Pair(0, 0)
  {
    n.first == raw.first * 1_000_000 / (raw.first + raw.second) && n.first + n.second == 1_000_000
  }

  lemma NormalizedIs(raw: Pair)
    requires Normalize(raw).Some?
    ensures raw != Pair(0, 0) && IsNormalized(Normalize(raw).value, raw)
  {
    hide WordSpan;
  }

  /** What an accepted migration reports: its branch, the collateral and the normalised payouts. */
  lemma MigrationReports(s: State, rows: seq<Row>, setup: Setup)
    requires CanMigrate(s, rows, setup)
    ensures var m, collateral := MigrationOf(s, rows, setup), Collateral(s, rows, setup);
      && m.branch == (if NoPayouts(setup) then Unresolved else if s.resolved then StoredResolved else FirstResolution)
      && m.merged == (if NoPayouts(setup) then collateral else 0)
      && m.redeemed == (if NoPayouts(setup) then 0 else collateral)
      && m.swept == s.moduleUsdce + collateral
      && Lands(m.next, s, rows, setup)
      && (m.normalized.Some? <==> !NoPayouts(setup) && !s.resolved)
      && (m.normalized.Some? ==> IsNormalized(m.normalized.value, setup.numerators))
  {
    MigrationIsAccepted(s, rows, setup);
    MigrationTakesBranch(s, rows, setup);
    BranchIsExpected(s.resolved, setup);
    MigrationMoves(s, rows, setup, CtfUsdce);
    SettledIsOneKind(s, rows, setup);
    hide WordSpan, CanMigrate, Migrate, BranchOf, Collateral, Share, IsNormalized;
  }

  lemma SettledIsOneKind(s: State, rows: seq<Row>, setup: Setup)
    requires Migrate(s, rows, setup).Some?
    ensures var m := Migrate(s, rows, setup).value;
      && (m.branch.Unresolved? ==> m.redeemed == 0) && (!m.branch.Unresolved? ==> m.merged == 0)
      && m.normalized.Some? == m.branch.FirstResolution?
      && (m.normalized.Some? ==>
            setup.numerators != Pair(0, 0) && IsNormalized(m.normalized.value, setup.numerators))
  {
    hide WordSpan, Deposit, DepositLogs, RowLogs, ResolveLogs, SweepLogs, Normalize, RedemptionOf, IsNormalized;
    hide MergeLogs, RedemptionLogs, Merge, Redeem, Sweep;
    if Normalize(setup.numerators).Some? { NormalizedIs(setup.numerators); }
  }

  // ----- transactions

  /** A log that concerns neither owner nor module, nor the positions that migrate, nor a contract
      that the replay relies on. */
  ghost predicate IsAside(log: Log, setup: Setup) {
    match log
    case Moved(Undecodable(_)) => false
    case Moved(Cash(token, from, to, _)) =>
      var who := if token == Usdce then setup.module_ else setup.owner;
      from != who && to != who
    case Moved(Single(book, _, from, to, id, _)) => PositionIsAside(book, from, to, [id], setup)
    case Moved(Batch(book, _, from, to, ids, _)) => PositionIsAside(book, from, to, ids, setup)
    case Noted(Emitted(emitter, topic, _)) => emitter != setup.ctf && (emitter != setup.module_ || topic == NoTopic)
    case Noted(PositionsSplit(emitter, _, _, _, _, _)) => emitter != setup.ctf && emitter != setup.module_
    case Noted(PositionsMerged(emitter, _, _, _, _)) => emitter != setup.ctf && emitter != setup.module_
    case Noted(PositionRedeemed(emitter, _, _, _, _, _)) => emitter != setup.ctf && emitter != setup.module_
    case Noted(OfCtf(_)) => false
    case Noted(_) => true
  }

  /** Legacy positions must be others' and other ids; new ones either. */
  ghost predicate PositionIsAside(book: Book, from: Address, to: Address, ids: seq<U256>, setup: Setup) {
    if book == ConditionalTokens then
      && setup.legacyIds.first !in ids && setup.legacyIds.second !in ids
      && from != setup.owner && to != setup.owner && from != setup.module_ && to != setup.module_
    else
      (setup.v2Ids.first !in ids && setup.v2Ids.second !in ids) || (from != setup.owner && to != setup.owner)
  }

  lemma AsideIsIrrelevant(log: Log, setup: Setup)
    ensures IsAside(log, setup) <==> !IsRelevant(log, setup)
  {
    hide WordSpan;
  }

  /** The transaction changes no rule and concerns nobody here. */
  ghost predicate AllAside(logs: seq<Log>, setup: Setup) { forall log :: log in logs ==> IsAside(log, setup) }

  ghost predicate ChangesRules(logs: seq<Log>) {
    exists e :: Noted(e) in logs && e.Emitted? && e.topic == ControlChange
  }

  lemma ActivityIsConcern(logs: seq<Log>, setup: Setup)
    ensures HasRelevantActivity(logs, setup) <==> !AllAside(logs, setup)
    ensures HasControlChange(logs) <==> ChangesRules(logs)
  {
    forall log: Log
      ensures IsAside(log, setup) <==> !IsRelevant(log, setup)
    {
      AsideIsIrrelevant(log, setup);
    }
    hide IsAside, IsRelevant;
    if HasControlChange(logs) {
      var log :| log in logs && log.Noted? && log.event.Emitted? && log.event.topic == ControlChange;
      assert Noted(log.event) in logs;
    }
  }

  /** Balances of CTF and vault can follow a log that is of no concern otherwise. */
  ghost predicate CanFollow(ctf: int, vault: int, log: Log, setup: Setup) {
    match log
    case Moved(Cash(Usdce, from, to, amount)) =>
      && from != setup.module_ && to != setup.module_
      && (from == setup.ctf ==> amount <= ctf) && (from == setup.vault ==> amount <= vault)
      && (to == setup.ctf && from != setup.ctf ==> ctf + amount < WordSpan())
      && (to == setup.vault && from != setup.vault ==> vault + amount < WordSpan())
    case _ => true
  }

  ghost predicate CanPass(s: State, logs: seq<Log>, setup: Setup) {
    forall k :: 0 <= k < |logs| ==> CanPassAt(s, logs, setup, k)
  }

  ghost predicate CanPassAt(s: State, logs: seq<Log>, setup: Setup, k: nat)
    requires k < |logs|
  {
    CanFollow(s.ctfUsdce + LogsMove(logs[..k], CtfUsdce, setup), s.vaultUsdce + LogsMove(logs[..k], VaultUsdce, setup),
              logs[k], setup)
  }

  lemma TransferIsFollowed(s: State, from: Address, to: Address, amount: U256, setup: Setup)
    requires setup.Separate()
    ensures PassTransfer(s, from, to, amount, setup).Some? <==>
      CanFollow(s.ctfUsdce, s.vaultUsdce, Moved(Cash(Usdce, from, to, amount)), setup)
  {
    hide WordSpan;
  }

  lemma LogIsFollowed(s: State, log: Log, setup: Setup)
    requires setup.Separate() && !IsRelevant(log, setup)
    ensures PassLog(s, log, setup).Some? <==> CanFollow(s.ctfUsdce, s.vaultUsdce, log, setup)
  {
    hide WordSpan, PassTransfer, EmittedBy;
    if log.Moved? && log.movement.Cash? && log.movement.token.Usdce? {
      TransferIsFollowed(s, log.movement.from, log.movement.to, log.movement.amount, setup);
    }
  }

  lemma PassesOneMore(s: State, logs: seq<Log>, setup: Setup)
    requires logs != []
    ensures var front := logs[..|logs| - 1];
      CanPass(s, logs, setup) <==>
      && CanPass(s, front, setup)
      && CanFollow(s.ctfUsdce + LogsMove(front, CtfUsdce, setup), s.vaultUsdce + LogsMove(front, VaultUsdce, setup),
                   logs[|logs| - 1], setup)
  {
    hide LogsMove, CanFollow, WordSpan;
    var front := logs[..|logs| - 1];
    forall k | 0 <= k < |front|
      ensures CanPassAt(s, front, setup, k) <==> CanPassAt(s, logs, setup, k)
    {
      assert front[..k] == logs[..k];
    }
    assert CanPassAt(s, logs, setup, |front|) <==>
      CanFollow(s.ctfUsdce + LogsMove(front, CtfUsdce, setup), s.vaultUsdce + LogsMove(front, VaultUsdce, setup),
                logs[|front|], setup);
    hide CanPassAt;
  }

  /** Other transactions pass exactly when CTF and vault can follow their logs, one by one. */
  lemma {:induction false} PassIsAccepted(s: State, logs: seq<Log>, setup: Setup)
    requires setup.Separate() && !HasRelevantActivity(logs, setup)
    ensures PassLogs(s, logs, setup).Some? <==> CanPass(s, logs, setup)
  {
    hide WordSpan, IsRelevant, PassLog, LogsMove, CanFollow, CanPass, HasRelevantActivity, Setup.Separate;
    NothingPasses(s, setup);
    if logs != [] {
      var front, last := logs[..|logs| - 1], logs[|logs| - 1];
      FrontIsAside(logs, setup);
      PassesOneMore(s, logs, setup);
      PassIsAccepted(s, front, setup);
      if PassLogs(s, front, setup).Some? {
        PassLogsMove(s, front, setup, CtfUsdce);
        PassLogsMove(s, front, setup, VaultUsdce);
        LogIsFollowed(PassLogs(s, front, setup).value, last, setup);
      }
    }
  }

  lemma NothingPasses(s: State, setup: Setup)
    ensures CanPass(s, [], setup)
  {
  }

  lemma FrontIsAside(logs: seq<Log>, setup: Setup)
    requires logs != [] && !HasRelevantActivity(logs, setup)
    ensures !HasRelevantActivity(logs[..|logs| - 1], setup) && !IsRelevant(logs[|logs| - 1], setup)
  {
    hide IsRelevant;
    assert logs[|logs| - 1] in logs && forall log :: log in logs[..|logs| - 1] ==> log in logs;
  }

  /** A migration of these rows by the owner, with exactly the logs that it must leave. */
  ghost predicate IsMigrationOf(tx: Transaction, rows: seq<Row>, s: State, setup: Setup) {
    && tx.succeeded && tx.replayProtected && tx.value == 0 && tx.recoveredFrom == Some(setup.owner)
    && tx.input.Some? && MigrationCodec.SELECTOR <= tx.input.value
    && MigrationCodec.Encodes(tx.input.value, rows, setup)
    && CanMigrate(s, rows, setup) && tx.logs == MigrationOf(s, rows, setup).logs
  }

  /** The replay goes on exactly after a migration that can be made and leaves its logs, and after
      a transaction to another target that concerns neither owner nor module. */
  lemma VisitIsAccepted(run: Run, block: Block, tx: Transaction, setup: Setup)
    requires setup.Separate()
    ensures Visit(run, block, tx, setup).Going? <==>
      && !ChangesRules(tx.logs)
      && if tx.to == Some(setup.module_) then exists rows :: IsMigrationOf(tx, rows, run.state, setup)
         else AllAside(tx.logs, setup) && CanPass(run.state, tx.logs, setup)
  {
    ActivityIsConcern(tx.logs, setup);
    hide WordSpan, AllAside, ChangesRules, Migrate, CanMigrate, PassLogs, CanPass;
    hide HasRelevantActivity, HasControlChange;
    hide MigrationCodec.Encodes;
    if tx.to == Some(setup.module_) {
      MigrationIsVisited(run, block, tx, setup);
    } else if !HasRelevantActivity(tx.logs, setup) {
      PassIsAccepted(run.state, tx.logs, setup);
    }
  }

  lemma MigrationIsVisited(run: Run, block: Block, tx: Transaction, setup: Setup)
    requires tx.to == Some(setup.module_)
    ensures Visit(run, block, tx, setup).Going? <==>
      !HasControlChange(tx.logs) && exists rows :: IsMigrationOf(tx, rows, run.state, setup)
  {
    hide WordSpan, IsMigrationOf, HasRelevantActivity, HasControlChange, VisitMigration, PassLogs;
    if exists rows :: IsMigrationOf(tx, rows, run.state, setup) {
      var rows :| IsMigrationOf(tx, rows, run.state, setup);
      MigrationIsRecorded(run, block, tx, rows, setup);
    }
    if IsMigrationCall(tx, setup) && VisitMigration(run, block, tx, setup).Going? {
      RecordedIsMigration(run, block, tx, setup);
    }
  }

  lemma MigrationIsRecorded(run: Run, block: Block, tx: Transaction, rows: seq<Row>, setup: Setup)
    requires tx.to == Some(setup.module_) && IsMigrationOf(tx, rows, run.state, setup)
    ensures IsMigrationCall(tx, setup)
    ensures VisitMigration(run, block, tx, setup)
      == Going(Record(run, block, tx, rows, MigrationOf(run.state, rows, setup)))
  {
    hide WordSpan, Migrate, CanMigrate, MigrationCodec.Encodes;
    MigrationCodec.EncodingIsUnique(tx.input.value, rows, RowsOf(tx.input.value, setup).value, setup);
    MigrationIsAccepted(run.state, rows, setup);
  }

  lemma RecordedIsMigration(run: Run, block: Block, tx: Transaction, setup: Setup)
    requires IsMigrationCall(tx, setup) && VisitMigration(run, block, tx, setup).Going?
    ensures exists rows :: IsMigrationOf(tx, rows, run.state, setup)
  {
    hide WordSpan, Migrate, CanMigrate, MigrationCodec.Encodes;
    var rows := RowsOf(tx.input.GetOr([]), setup).value;
    MigrationIsAccepted(run.state, rows, setup);
    assert IsMigrationOf(tx, rows, run.state, setup);
  }

  // ----- transactions of strangers

  ghost predicate Stranger(who: Address, setup: Setup) {
    who != setup.owner && who != setup.module_ && who != setup.ctf && who != setup.vault
  }

  /** A transfer of other positions or of money between strangers, or an event of a stranger. */
  ghost predicate IsForeign(log: Log, setup: Setup) {
    match log
    case Moved(Undecodable(_)) => false
    case Moved(Cash(_, from, to, _)) => Stranger(from, setup) && Stranger(to, setup)
    case Moved(Single(_, _, from, to, id, _)) =>
      Stranger(from, setup) && Stranger(to, setup) && !Lists(setup.legacyIds, id) && !Lists(setup.v2Ids, id)
    case Moved(Batch(_, _, from, to, ids, _)) =>
      && Stranger(from, setup) && Stranger(to, setup)
      && forall id :: id in ids ==> !Lists(setup.legacyIds, id) && !Lists(setup.v2Ids, id)
    case Noted(Emitted(emitter, topic, _)) => Stranger(emitter, setup) && topic != ControlChange
    case Noted(PositionsSplit(emitter, _, _, _, _, _)) => Stranger(emitter, setup)
    case Noted(PositionsMerged(emitter, _, _, _, _)) => Stranger(emitter, setup)
    case Noted(PositionRedeemed(emitter, _, _, _, _, _)) => Stranger(emitter, setup)
    case Noted(OfCtf(_)) => false
    case Noted(_) => true
  }

  lemma ForeignIsPassed(s: State, log: Log, setup: Setup)
    requires IsForeign(log, setup)
    ensures !IsRelevant(log, setup) && PassLog(s, log, setup) == Some(s)
  {
    hide WordSpan;
  }

  lemma {:induction false} ForeignPass(s: State, logs: seq<Log>, setup: Setup)
    requires forall log :: log in logs ==> IsForeign(log, setup)
    ensures PassLogs(s, logs, setup) == Some(s)
  {
    hide WordSpan, IsForeign, PassLog;
    if logs != [] {
      ForeignPass(s, logs[..|logs| - 1], setup);
      ForeignIsPassed(s, logs[|logs| - 1], setup);
    }
  }

  /** The replay goes past a transaction of strangers with nothing changed, failed or not. */
  lemma StrangersPass(run: Run, block: Block, tx: Transaction, setup: Setup)
    requires tx.to != Some(setup.module_) && forall log :: log in tx.logs ==> IsForeign(log, setup)
    ensures Visit(run, block, tx, setup) == Going(run)
  {
    hide WordSpan, IsRelevant, PassLogs, PassLog;
    ForeignPass(run.state, tx.logs, setup);
    forall log | log in tx.logs
      ensures !IsRelevant(log, setup)
    {
      ForeignIsPassed(run.state, log, setup);
    }
  }

  // ----- intervals

  /** A migration leaves no event that a replay must not pass over. */
  lemma MigrationIsUncontrolled(s: State, rows: seq<Row>, setup: Setup)
    requires CanMigrate(s, rows, setup)
    ensures !HasControlChange(MigrationOf(s, rows, setup).logs)
  {
    MigrationIsAccepted(s, rows, setup);
    RowsAreUncontrolled(rows, setup);
    PartsAreUncontrolled(rows, BranchOf(s.resolved, setup).value, Migrate(s, rows, setup).value.swept, setup);
    SettlementIsUncontrolled(Pooling(s, rows, setup), BranchOf(s.resolved, setup).value, setup);
    hide WordSpan, CanMigrate, Deposit, BranchOf, DepositLogs, ResolveLogs, RowLogs, SweepLogs, Settle, Sweep;
    hide NormalizedFor;
  }

  lemma PartsAreUncontrolled(rows: seq<Row>, branch: Branch, swept: U256, setup: Setup)
    ensures !HasControlChange(DepositLogs(rows, setup)) && !HasControlChange(ResolveLogs(branch, setup))
    ensures !HasControlChange(SweepLogs(swept, setup))
  {
    hide WordSpan, NormalizedFor, Ids, Amounts;
  }

  lemma SettlementIsUncontrolled(s: State, branch: Branch, setup: Setup)
    requires Settle(s, branch, setup).Some?
    ensures !HasControlChange(Settle(s, branch, setup).value.logs)
  {
    hide WordSpan, Merge, Redeem, RedemptionOf;
  }

  lemma {:induction false} RowsAreUncontrolled(rows: seq<Row>, setup: Setup)
    ensures !HasControlChange(RowLogs(rows, setup))
  {
    hide WordSpan;
    if rows != [] {
      RowsAreUncontrolled(rows[..|rows| - 1], setup);
    }
  }

  /** A block of one transaction: a migration of some rows, or one of strangers. */
  ghost predicate IsHonest(before: State, block: Block, boundary: Boundary, plan: Option<seq<Row>>, setup: Setup) {
    && |block.transactions| == 1 && boundary.pause == setup.pause
    && var tx := block.transactions[0];
       match plan
       case Some(rows) =>
         && tx.to == Some(setup.module_) && IsMigrationOf(tx, rows, before, setup)
         && Lands(boundary.state, before, rows, setup)
       case None =>
         && tx.to != Some(setup.module_) && (forall log :: log in tx.logs ==> IsForeign(log, setup))
         && boundary.state == before
  }

  ghost function StateBefore(opening: State, boundaries: seq<Boundary>, k: nat): State
    requires k <= |boundaries|
  {
    if k == 0 then opening else boundaries[k - 1].state
  }

  ghost predicate AreHonest(opening: State, blocks: seq<Block>, boundaries: seq<Boundary>, plan: seq<Option<seq<Row>>>,
                            setup: Setup)
    requires |blocks| == |boundaries| == |plan|
  {
    forall k :: 0 <= k < |blocks| ==>
      IsHonest(StateBefore(opening, boundaries, k), blocks[k], boundaries[k], plan[k], setup)
  }

  ghost function Planned(opening: State, blocks: seq<Block>, boundaries: seq<Boundary>, plan: seq<Option<seq<Row>>>,
                         setup: Setup, k: nat): seq<Fact>
    requires k <= |blocks| == |boundaries| == |plan| && AreHonest(opening, blocks, boundaries, plan, setup)
  {
    if k == 0 then
      []
    else
      var before := StateBefore(opening, boundaries, k - 1);
      assert IsHonest(before, blocks[k - 1], boundaries[k - 1], plan[k - 1], setup);
      Planned(opening, blocks, boundaries, plan, setup, k - 1)
      + match plan[k - 1]
        case Some(rows) =>
          [FactOf(blocks[k - 1], blocks[k - 1].transactions[0], rows, MigrationOf(before, rows, setup))]
        case None => []
  }

  lemma HonestBlockPasses(run: Run, block: Block, boundary: Boundary, plan: Option<seq<Row>>, setup: Setup)
    requires IsHonest(run.state, block, boundary, plan, setup)
    ensures var r := BlockResult(run, block, boundary, setup);
      && r.Going? && r.run.state == boundary.state
      && r.run.facts == run.facts
         + match plan
           case Some(rows) => [FactOf(block, block.transactions[0], rows, MigrationOf(run.state, rows, setup))]
           case None => []
  {
    var tx := block.transactions[0];
    if plan.Some? {
      assert CanMigrate(run.state, plan.value, setup) && IsMigrationOf(tx, plan.value, run.state, setup);
      assert tx.logs == MigrationOf(run.state, plan.value, setup).logs;
    }
    assert VisitAll(run, block, setup, 1) == Visit(run, block, tx, setup);
    hide WordSpan, IsMigrationOf, VisitMigration, HasControlChange, HasRelevantActivity, PassLogs, Lands, CanMigrate;
    hide IsForeign, VisitAll;
    match plan
    case Some(rows) =>
      MigrationIsUncontrolled(run.state, rows, setup);
      MigrationIsRecorded(run, block, tx, rows, setup);
      MigrationIsAccepted(run.state, rows, setup);
      LandsOnce(boundary.state, MigrationOf(run.state, rows, setup).next, run.state, rows, setup);
    case None =>
      StrangersPass(run, block, tx, setup);
  }

  lemma {:induction false} HonestBlocksPass(opening: State, blocks: seq<Block>, boundaries: seq<Boundary>,
                                            plan: seq<Option<seq<Row>>>, setup: Setup, k: nat)
    requires k <= |blocks| == |boundaries| == |plan| && AreHonest(opening, blocks, boundaries, plan, setup)
    ensures var r := Through(StartOf(opening), blocks, boundaries, setup, k);
      && r.Going? && r.run.state == StateBefore(opening, boundaries, k)
      && r.run.facts == Planned(opening, blocks, boundaries, plan, setup, k)
  {
    hide BlockResult, MigrationOf, IsHonest;
    if k > 0 {
      HonestBlocksPass(opening, blocks, boundaries, plan, setup, k - 1);
      HonestBlockPasses(Through(StartOf(opening), blocks, boundaries, setup, k - 1).run, blocks[k - 1],
                        boundaries[k - 1], plan[k - 1], setup);
    }
  }

  /** An interval whose blocks hold migrations that can be made, with the logs and the balances that
      they leave, or transactions of strangers, matches and reports exactly these migrations. */
  lemma HonestIntervalMatches(opening: State, blocks: seq<Block>, boundaries: seq<Boundary>,
                              plan: seq<Option<seq<Row>>>, setup: Setup, from: U64, through: U64)
    requires |blocks| == |boundaries| == |plan| && AreHonest(opening, blocks, boundaries, plan, setup)
    requires opening.moduleLegacy == Pair(0, 0) && opening.moduleUsdce == 0
    ensures Interval(Opening(opening, 1), blocks, boundaries, setup, from, through)
      == Matched(Planned(opening, blocks, boundaries, plan, setup, |blocks|))
  {
    hide Through, AreHonest, Planned;
    HonestBlocksPass(opening, blocks, boundaries, plan, setup, |blocks|);
    ClosingNeverRefuses(opening, blocks, boundaries, setup, through);
  }

  lemma LandsOnce(a: State, b: State, s: State, rows: seq<Row>, setup: Setup)
    requires CanMigrate(s, rows, setup) && Lands(a, s, rows, setup) && Lands(b, s, rows, setup)
    ensures a == b
  {
    hide WordSpan, Collateral, Pooled, RowTotal;
    assert a.ownerLegacy.Get(0) == b.ownerLegacy.Get(0) && a.ownerLegacy.Get(1) == b.ownerLegacy.Get(1);
    assert a.ownerV2.Get(0) == b.ownerV2.Get(0) && a.ownerV2.Get(1) == b.ownerV2.Get(1);
    assert a.moduleLegacy.Get(0) == b.moduleLegacy.Get(0) && a.moduleLegacy.Get(1) == b.moduleLegacy.Get(1);
  }

  // ----- boundaries

  lemma {:induction false} FirstMismatchIs(number: U64, authenticated: State, s: State, holdings: seq<Holding>)
    ensures var r := FirstMismatch(number, authenticated, s, holdings);
      if forall h :: h in holdings ==> Held(authenticated, h) == Held(s, h) then
        r == Unavailable(number, None, SourceSettlementMismatch)
      else
        && r.Mismatch? && r.blockNumber == number && r.holding in holdings && r.authenticated != r.reconstructed
        && r.authenticated == Held(authenticated, r.holding) && r.reconstructed == Held(s, r.holding)
  {
    hide Held;
    if holdings != [] && Held(authenticated, holdings[0]) == Held(s, holdings[0]) {
      assert holdings == [holdings[0]] + holdings[1..];
      FirstMismatchIs(number, authenticated, s, holdings[1..]);
    }
  }

  /** A block is closed exactly when its record is the authenticated one; a mismatch names one of
      the ten balances that differs, and there is none only if all ten agree and the result does not. */
  lemma BoundaryIsAccepted(run: Run, block: Block, boundary: Boundary)
    ensures var r := CloseBlock(run, block, boundary);
      if boundary.state == run.state then
        r == Going(run)
      else if boundary.state == run.state.(resolved := !run.state.resolved) then
        r == Stopped(Unavailable(block.number, None, SourceSettlementMismatch))
      else
        && r.Stopped? && r.status.Mismatch? && r.status.blockNumber == block.number
        && r.status.authenticated == Held(boundary.state, r.status.holding)
        && r.status.reconstructed == Held(run.state, r.status.holding)
        && r.status.authenticated != r.status.reconstructed
  {
    FirstMismatchIs(block.number, boundary.state, run.state, HOLDINGS);
    AllHoldings(boundary.state, run.state);
    hide Held, FirstMismatch;
  }

  lemma AllHoldings(a: State, b: State)
    ensures (forall h :: h in HOLDINGS ==> Held(a, h) == Held(b, h)) <==> a == b || a == b.(resolved := !b.resolved)
  {
    hide WordSpan;
    if forall h :: h in HOLDINGS ==> Held(a, h) == Held(b, h) {
      EachIsListed();
      hide HOLDINGS;
      assert Held(a, OwnerLegacy(0)) == Held(b, OwnerLegacy(0)) && Held(a, OwnerLegacy(1)) == Held(b, OwnerLegacy(1));
      assert Held(a, ModuleLegacy(0)) == Held(b, ModuleLegacy(0));
      assert Held(a, ModuleLegacy(1)) == Held(b, ModuleLegacy(1));
      assert Held(a, OwnerV2(0)) == Held(b, OwnerV2(0)) && Held(a, OwnerV2(1)) == Held(b, OwnerV2(1));
      assert Held(a, OwnerPusd) == Held(b, OwnerPusd) && Held(a, ModuleUsdce) == Held(b, ModuleUsdce);
      assert Held(a, CtfUsdce) == Held(b, CtfUsdce) && Held(a, VaultUsdce) == Held(b, VaultUsdce);
    }
  }

  lemma EachIsListed()
    ensures forall h: Holding :: h in HOLDINGS
  {
    hide WordSpan;
    forall h: Holding
      ensures h in HOLDINGS
    {
      match h
      case OwnerLegacy(i) => assert HOLDINGS[2 * i] == h;
      case ModuleLegacy(i) => assert HOLDINGS[2 * i + 1] == h;
      case OwnerV2(i) => assert HOLDINGS[4 + i] == h;
      case OwnerPusd => assert HOLDINGS[6] == h;
      case ModuleUsdce => assert HOLDINGS[7] == h;
      case CtfUsdce => assert HOLDINGS[8] == h;
      case VaultUsdce => assert HOLDINGS[9] == h;
    }
  }
}
