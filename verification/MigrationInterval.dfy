/** Replays an interval of migrations, transaction by transaction and block by block, against
    the authenticated balances. */
module MigrationInterval {
  import opened Words
  import opened Ledger
  import opened Receipts
  import opened Migration
  import opened MigrationCodec

  datatype Reason =
    | ModuleNotEmpty | ApprovalUnavailable | ResolutionStateUnavailable | UnsupportedDirectCall
    | UnsupportedOwnerActivity | InvalidCalldata | SourceSettlementMismatch

  datatype Fact = Fact(
    blockNumber: U64, blockHash: Hash, transactionHash: Hash, transactionIndex: U64, branch: Branch,
    rows: seq<Row>, residue: Pair, merged: U256, redeemed: U256, swept: U256, normalized: Option<Pair>)

  datatype Status =
    | Matched(facts: seq<Fact>)
    | Mismatch(blockNumber: int, holding: Holding, authenticated: U256, reconstructed: U256)
    | Unavailable(blockNumber: int, transactionHash: Option<Hash>, reason: Reason)

  /** The authenticated balances and result at the end of a block, and the pause time. */
  datatype Boundary = Boundary(state: State, pause: U256)

  datatype Opening = Opening(state: State, approval: U256)

  datatype Run = Run(state: State, facts: seq<Fact>, transitioned: bool)

  datatype Progress = Going(run: Run) | Stopped(status: Status)

  // ----- transactions that are not migrations

  predicate EmittedBy(e: Event, who: Address) {
    match e
    case Emitted(emitter, _, _) => emitter == who
    case PositionsSplit(m, _, _, _, _, _) => m == who
    case PositionsMerged(m, _, _, _, _) => m == who
    case PositionRedeemed(m, _, _, _, _, _) => m == who
    case _ => false
  }

  predicate Lists(pair: Pair, id: U256) { pair.first == id || pair.second == id }

  predicate Touches(from: Address, to: Address, who: Address) { from == who || to == who }

  predicate IsRelevant(log: Log, setup: Setup) {
    match log
    case Noted(e) =>
      (EmittedBy(e, setup.module_) && !(e.Emitted? && e.topic == NoTopic)) || EmittedBy(e, setup.ctf) || e.OfCtf?
    case Moved(Undecodable(_)) => true
    case Moved(Cash(Usdce, from, to, _)) => Touches(from, to, setup.module_)
    case Moved(Cash(Pusd, from, to, _)) => Touches(from, to, setup.owner)
    case Moved(Single(ConditionalTokens, _, from, to, id, _)) =>
      Lists(setup.legacyIds, id) || Touches(from, to, setup.owner) || Touches(from, to, setup.module_)
    case Moved(Single(PositionManager, _, from, to, id, _)) =>
      Lists(setup.v2Ids, id) && Touches(from, to, setup.owner)
    case Moved(Batch(ConditionalTokens, _, from, to, ids, _)) =>
      (exists id :: id in ids && Lists(setup.legacyIds, id)) || Touches(from, to, setup.owner)
      || Touches(from, to, setup.module_)
    case Moved(Batch(PositionManager, _, from, to, ids, _)) =>
      (exists id :: id in ids && Lists(setup.v2Ids, id)) && Touches(from, to, setup.owner)
  }

  predicate HasRelevantActivity(logs: seq<Log>, setup: Setup) {
    exists log :: log in logs && IsRelevant(log, setup)
  }

  predicate HasControlChange(logs: seq<Log>) {
    exists log :: log in logs && log.Noted? && log.event.Emitted? && log.event.topic == ControlChange
  }

  // ----- one transaction

  predicate IsMigrationCall(tx: Transaction, setup: Setup) {
    tx.to == Some(setup.module_) && SELECTOR <= tx.input.GetOr([])
  }

  /** The rows that an input encodes; there is at most one such list. */
  ghost function RowsOf(input: seq<Byte>, setup: Setup): Option<seq<Row>> {
    if exists rows :: Encodes(input, rows, setup) then
      var rows :| Encodes(input, rows, setup);
      Some(rows)
    else
      None
  }

  function Refuse(block: Block, tx: Transaction, reason: Reason): Progress {
    Stopped(Unavailable(block.number, Some(tx.hash), reason))
  }

  predicate SentByOwner(tx: Transaction, setup: Setup) {
    tx.succeeded && tx.replayProtected && tx.value == 0 && tx.recoveredFrom == Some(setup.owner)
  }

  function FactOf(block: Block, tx: Transaction, rows: seq<Row>, m: Migrated): Fact {
    Fact(block.number, block.hash, tx.hash, tx.index, m.branch, rows, m.next.moduleLegacy, m.merged, m.redeemed,
         m.swept, m.normalized)
  }

  function Record(run: Run, block: Block, tx: Transaction, rows: seq<Row>, m: Migrated): Run {
    Run(m.next, run.facts + [FactOf(block, tx, rows, m)],
        run.transitioned || (!run.state.resolved && m.next.resolved))
  }

  ghost function VisitMigration(run: Run, block: Block, tx: Transaction, setup: Setup): Progress {
    if !SentByOwner(tx, setup) then
      Refuse(block, tx, UnsupportedOwnerActivity)
    else
      match RowsOf(tx.input.GetOr([]), setup)
      case None => Refuse(block, tx, InvalidCalldata)
      case Some(rows) =>
        var m := Migrate(run.state, rows, setup);
        if m.None? || tx.logs != m.value.logs then Refuse(block, tx, SourceSettlementMismatch)
        else Going(Record(run, block, tx, rows, m.value))
  }

  ghost function Visit(run: Run, block: Block, tx: Transaction, setup: Setup): Progress {
    if HasControlChange(tx.logs) then
      Refuse(block, tx, ResolutionStateUnavailable)
    else if tx.to == Some(setup.module_) && !IsMigrationCall(tx, setup) then
      Refuse(block, tx, UnsupportedDirectCall)
    else if IsMigrationCall(tx, setup) then
      VisitMigration(run, block, tx, setup)
    else if HasRelevantActivity(tx.logs, setup) || PassLogs(run.state, tx.logs, setup).None? then
      Refuse(block, tx, UnsupportedOwnerActivity)
    else
      Going(run.(state := PassLogs(run.state, tx.logs, setup).value))
  }

  ghost function VisitAll(run: Run, block: Block, setup: Setup, n: nat): Progress
    requires n <= |block.transactions|
  {
    if n == 0 then
      Going(run)
    else
      var before := VisitAll(run, block, setup, n - 1);
      if before.Stopped? then before else Visit(before.run, block, block.transactions[n - 1], setup)
  }

  // ----- one boundary

  const HOLDINGS: seq<Holding> := [
    OwnerLegacy(0), ModuleLegacy(0), OwnerLegacy(1), ModuleLegacy(1), OwnerV2(0), OwnerV2(1),
    OwnerPusd, ModuleUsdce, CtfUsdce, VaultUsdce]

  /** The first of some holdings that differs; with none, only the result can differ. */
  function FirstMismatch(number: U64, authenticated: State, s: State, holdings: seq<Holding>): Status {
    if holdings == [] then
      Unavailable(number, None, SourceSettlementMismatch)
    else if Held(authenticated, holdings[0]) != Held(s, holdings[0]) then
      Mismatch(number, holdings[0], Held(authenticated, holdings[0]), Held(s, holdings[0]))
    else
      FirstMismatch(number, authenticated, s, holdings[1..])
  }

  function CloseBlock(run: Run, block: Block, boundary: Boundary): Progress {
    if boundary.state == run.state then Going(run)
    else Stopped(FirstMismatch(block.number, boundary.state, run.state, HOLDINGS))
  }

  ghost function BlockResult(run: Run, block: Block, boundary: Boundary, setup: Setup): Progress {
    if boundary.pause != setup.pause then
      Stopped(Unavailable(block.number, None, ResolutionStateUnavailable))
    else
      var visited := VisitAll(run, block, setup, |block.transactions|);
      if visited.Stopped? then visited else CloseBlock(visited.run, block, boundary)
  }

  // ----- the interval

  ghost function Through(start: Run, blocks: seq<Block>, boundaries: seq<Boundary>, setup: Setup, k: nat): Progress
    requires k <= |blocks| == |boundaries|
  {
    if k == 0 then
      Going(start)
    else
      var before := Through(start, blocks, boundaries, setup, k - 1);
      if before.Stopped? then before else BlockResult(before.run, blocks[k - 1], boundaries[k - 1], setup)
  }

  /** The last look at the stored result, after all boundaries have matched. */
  function Closing(run: Run, boundaries: seq<Boundary>, through: U64): Status {
    var expected := if run.transitioned then true else run.state.resolved;
    if boundaries != [] && boundaries[|boundaries| - 1].state.resolved != expected then
      Unavailable(through, None, ResolutionStateUnavailable)
    else
      Matched(run.facts)
  }

  ghost function Interval(opening: Opening, blocks: seq<Block>, boundaries: seq<Boundary>, setup: Setup,
                          from: U64, through: U64): Status
    requires |blocks| == |boundaries|
  {
    if opening.state.moduleLegacy != Pair(0, 0) || opening.state.moduleUsdce != 0 then
      Unavailable(from - 1, None, ModuleNotEmpty)
    else if opening.approval != 1 then
      Unavailable(from - 1, None, ApprovalUnavailable)
    else
      var end := Through(Run(opening.state, [], false), blocks, boundaries, setup, |blocks|);
      if end.Stopped? then end.status else Closing(end.run, boundaries, through)
  }

  // ----- the loops

  lemma DecodedIsRowsOf(input: seq<Byte>, setup: Setup, r: Option<seq<Row>>)
    requires forall rows :: r == Some(rows) <==> Encodes(input, rows, setup)
    ensures r == RowsOf(input, setup)
  {
    hide Encodes, WordSpan;
    assert r.Some? ==> Encodes(input, r.value, setup);
    assert RowsOf(input, setup).Some? ==> Encodes(input, RowsOf(input, setup).value, setup);
  }

  method VisitCall(run: Run, block: Block, tx: Transaction, setup: Setup) returns (r: Progress)
    ensures r == VisitMigration(run, block, tx, setup)
  {
    hide RowsOf, Encodes, Migrate, WordSpan;
    if !SentByOwner(tx, setup) { return Refuse(block, tx, UnsupportedOwnerActivity); }
    var rows := DecodeRows(tx.input.GetOr([]), setup);
    DecodedIsRowsOf(tx.input.GetOr([]), setup, rows);
    if rows.None? { return Refuse(block, tx, InvalidCalldata); }
    var replay := new Replay(run.state);
    var m := replay.Run(rows.value, setup);
    if m.None? || tx.logs != m.value.logs { return Refuse(block, tx, SourceSettlementMismatch); }
    r := Going(Record(run, block, tx, rows.value, m.value));
  }

  method VisitTransaction(run: Run, block: Block, tx: Transaction, setup: Setup) returns (r: Progress)
    ensures r == Visit(run, block, tx, setup)
  {
    hide HasControlChange, HasRelevantActivity, VisitMigration, PassLogs, WordSpan;
    if HasControlChange(tx.logs) { return Refuse(block, tx, ResolutionStateUnavailable); }
    var isCall := IsMigrationCall(tx, setup);
    if tx.to == Some(setup.module_) && !isCall { return Refuse(block, tx, UnsupportedDirectCall); }
    if isCall {
      r := VisitCall(run, block, tx, setup);
      return;
    }
    if HasRelevantActivity(tx.logs, setup) { return Refuse(block, tx, UnsupportedOwnerActivity); }
    var replay := new Replay(run.state);
    var ok := replay.ApplyUnrelated(tx.logs, setup);
    if !ok { return Refuse(block, tx, UnsupportedOwnerActivity); }
    r := Going(run.(state := replay.View()));
  }

  lemma {:induction false} VisitAllStaysStopped(run: Run, block: Block, setup: Setup, n: nat)
    requires n <= |block.transactions| && VisitAll(run, block, setup, n).Stopped?
    ensures VisitAll(run, block, setup, |block.transactions|) == VisitAll(run, block, setup, n)
    decreases |block.transactions| - n
  {
    hide Visit;
    if n < |block.transactions| {
      VisitAllStaysStopped(run, block, setup, n + 1);
    }
  }

  method VisitBlock(run: Run, block: Block, boundary: Boundary, setup: Setup) returns (r: Progress)
    ensures r == BlockResult(run, block, boundary, setup)
  {
    hide Visit, CloseBlock;
    if boundary.pause != setup.pause {
      return Stopped(Unavailable(block.number, None, ResolutionStateUnavailable));
    }
    var current := run;
    for n := 0 to |block.transactions|
      invariant VisitAll(run, block, setup, n) == Going(current)
    {
      r := VisitTransaction(current, block, block.transactions[n], setup);
      if r.Stopped? {
        VisitAllStaysStopped(run, block, setup, n + 1);
        return;
      }
      current := r.run;
    }
    r := CloseBlock(current, block, boundary);
  }

  lemma {:induction false} ThroughStaysStopped(start: Run, blocks: seq<Block>, boundaries: seq<Boundary>, setup: Setup,
                                               k: nat)
    requires k <= |blocks| == |boundaries| && Through(start, blocks, boundaries, setup, k).Stopped?
    ensures Through(start, blocks, boundaries, setup, |blocks|) == Through(start, blocks, boundaries, setup, k)
    decreases |blocks| - k
  {
    hide BlockResult;
    if k < |blocks| {
      ThroughStaysStopped(start, blocks, boundaries, setup, k + 1);
    }
  }

  method ClassifyMigrationInterval(opening: Opening, blocks: seq<Block>, boundaries: seq<Boundary>, setup: Setup,
                                   from: U64, through: U64) returns (status: Status)
    requires |blocks| == |boundaries|
    ensures status == Interval(opening, blocks, boundaries, setup, from, through)
  {
    hide BlockResult, Closing;
    if opening.state.moduleLegacy != Pair(0, 0) || opening.state.moduleUsdce != 0 {
      return Unavailable(from - 1, None, ModuleNotEmpty);
    }
    if opening.approval != 1 { return Unavailable(from - 1, None, ApprovalUnavailable); }
    var current := Run(opening.state, [], false);
    ghost var start := current;
    for k := 0 to |blocks|
      invariant Through(start, blocks, boundaries, setup, k) == Going(current)
    {
      var next := VisitBlock(current, blocks[k], boundaries[k], setup);
      if next.Stopped? {
        ThroughStaysStopped(start, blocks, boundaries, setup, k + 1);
        return next.status;
      }
      current := next.run;
    }
    status := Closing(current, boundaries, through);
  }
}
