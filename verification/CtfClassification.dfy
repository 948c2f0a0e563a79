/** Classifies every transaction of an interval for one binary condition, and keeps two verdicts:
    whether the report is complete, and whether inventory and lifecycle are consistent. */
module CtfClassification {
  import opened Words
  import opened Ledger
  import opened Receipts
  import opened CtfCondition
  import opened CtfOperations
  import C = CtfCalls
  import Inventory

  datatype FactStatus = Matched | ExternalMovement | Unavailable | FailedNoAssetOperation | OutsideScope

  datatype Reason =
    | PreparationMismatch | ResolutionMalformed | ResolutionNonBinary | ResolutionMismatch | ResolutionCallUnbound
    | ResolutionCallMismatch | PreparationMissing | PreparationCallMismatch | SenderMismatch | CollateralUpgrade
    | OperationMismatch | LifecycleWithoutCall | WithoutOwnerScope | CallMalformed | ExchangePending
    | UnsupportedTarget | ExternalUnknown | LifecycleElsewhere | ReplayFailed

  datatype Fact = Fact(
    blockNumber: U64, transactionHash: Hash, transactionIndex: U64, status: FactStatus, kind: Option<Kind>,
    reason: Option<Reason>, match_: Option<Match>)

  datatype Reference = Reference(transactionHash: Hash, transactionIndex: U64)

  /** The evidence: authenticated balances in the blocks, and a condition proof before the first
      block and after each. Condition ids are hashes of oracle, question and count. */
  datatype Report = Report(
    scope: Scope, inventoryMatched: bool, upgrade: bool, references: seq<Reference>, opening: Balances,
    blocks: seq<Block>, proofs: seq<Proof>, derive: (Address, Hash, U256) -> Hash)
  {
    ghost predicate Valid() { |proofs| == |blocks| + 1 }
  }

  datatype State = State(
    balances: Balances, prepared: bool, payout: PayoutState, complete: bool, consistent: bool, facts: seq<Fact>)

  /** What a block has seen so far. */
  datatype Seen = Seen(preparation: bool, resolution: bool)

  // ----- the events of a transaction

  predicate HasLifecycle(logs: seq<Log>) {
    exists log :: log in logs && log.Noted? && log.event.OfCtf? && IsLifecycle(log.event.ctfEvent)
  }

  predicate IsLifecycle(e: CtfEvent) {
    e.ConditionPrepared? || e.ConditionResolved?
    || (e.Malformed? && (e.topic.PreparationTopic? || e.topic.ResolutionTopic?))
  }

  predicate HasOperationEvent(logs: seq<Log>) {
    exists log :: log in logs && log.Noted? && log.event.OfCtf? && IsOperation(log.event.ctfEvent)
  }

  predicate IsOperation(e: CtfEvent) {
    e.SetSplit? || e.SetMerged? || e.PayoutRedeemed? || (e.Malformed? && e.topic.OperationTopic?)
  }

  /** The scan of the lifecycle events of one transaction; it stops at the first refusal. */
  datatype Scan = Scan(
    prepared: bool, payout: PayoutState, seen: Seen, lifecycle: bool, resolved: bool, refused: Option<Reason>)

  function RefuseScan(scan: Scan, reason: Reason): Scan { scan.(refused := Some(reason), lifecycle := true) }

  predicate PreparationFits(r: Report, condition: Hash, oracle: Address, question: Hash, count: U256) {
    count == 2 && condition == r.scope.condition && r.derive(oracle, question, count) == r.scope.condition
  }

  predicate ResolutionFits(scan: Scan, tx: Transaction, endpoint: Proof, r: Report, condition: Hash, oracle: Address,
                           question: Hash, count: U256, numerators: Pair) {
    && scan.prepared && scan.payout.None? && |tx.logs| == 1 && count == 2 && condition == r.scope.condition
    && r.derive(oracle, question, count) == r.scope.condition
    && endpoint.status.ResolvedBinary? && endpoint.numerators == numerators
  }

  predicate ResolutionCallFits(call: C.OperationCall, tx: Transaction, oracle: Address, question: Hash,
                               numerators: seq<U256>)
    requires call.Resolve?
  {
    call.numerators == numerators && call.question == question && tx.recoveredFrom == Some(oracle)
    && tx.replayProtected && tx.value == 0
  }

  function DecodedCall(tx: Transaction): Option<C.OperationCall> { C.DecodeCall(tx.input.GetOr([])) }

  function ScanResolution(scan: Scan, tx: Transaction, endpoint: Proof, r: Report, condition: Hash, oracle: Address,
                          question: Hash, count: U256, numerators: seq<U256>): Scan {
    if |numerators| != 2 then
      RefuseScan(scan, ResolutionNonBinary)
    else
      var pair := Pair(numerators[0], numerators[1]);
      if !ResolutionFits(scan, tx, endpoint, r, condition, oracle, question, count, pair) then
        RefuseScan(scan, ResolutionMismatch)
      else
        var call := DecodedCall(tx);
        if call.None? || !call.value.Resolve? then RefuseScan(scan, ResolutionCallUnbound)
        else if !ResolutionCallFits(call.value, tx, oracle, question, numerators) then
          RefuseScan(scan, ResolutionCallMismatch)
        else
          scan.(payout := Some((pair, endpoint.denominator)), seen := scan.seen.(resolution := true),
                lifecycle := true, resolved := true)
  }

  function ScanLog(scan: Scan, log: Log, tx: Transaction, endpoint: Proof, r: Report): Scan {
    match log
    case Noted(OfCtf(ConditionPrepared(condition, oracle, question, count))) =>
      if scan.prepared || !Prepared(endpoint.status) || !PreparationFits(r, condition, oracle, question, count) then
        RefuseScan(scan, PreparationMismatch)
      else
        scan.(prepared := true, seen := scan.seen.(preparation := true), lifecycle := true)
    case Noted(OfCtf(Malformed(PreparationTopic))) => RefuseScan(scan, PreparationMismatch)
    case Noted(OfCtf(ConditionResolved(condition, oracle, question, count, numerators))) =>
      ScanResolution(scan, tx, endpoint, r, condition, oracle, question, count, numerators)
    case Noted(OfCtf(Malformed(ResolutionTopic))) => RefuseScan(scan, ResolutionMalformed)
    case _ => scan
  }

  function ScanLogs(start: Scan, tx: Transaction, endpoint: Proof, r: Report, n: nat): Scan
    requires n <= |tx.logs|
  {
    if n == 0 then
      start
    else
      var before := ScanLogs(start, tx, endpoint, r, n - 1);
      if before.refused.Some? then before else ScanLog(before, tx.logs[n - 1], tx, endpoint, r)
  }

  method ScanTransaction(start: Scan, tx: Transaction, endpoint: Proof, r: Report) returns (scan: Scan)
    ensures scan == ScanLogs(start, tx, endpoint, r, |tx.logs|)
  {
    hide ScanLog;
    scan := start;
    for n := 0 to |tx.logs|
      invariant scan == ScanLogs(start, tx, endpoint, r, n)
    {
      if scan.refused.Some? {
        ScanStaysRefused(start, tx, endpoint, r, n);
        return;
      }
      scan := ScanLog(scan, tx.logs[n], tx, endpoint, r);
    }
  }

  lemma {:induction false} ScanStaysRefused(start: Scan, tx: Transaction, endpoint: Proof, r: Report, n: nat)
    requires n <= |tx.logs| && ScanLogs(start, tx, endpoint, r, n).refused.Some?
    ensures ScanLogs(start, tx, endpoint, r, |tx.logs|) == ScanLogs(start, tx, endpoint, r, n)
    decreases |tx.logs| - n
  {
    hide ScanLog;
    if n < |tx.logs| {
      ScanStaysRefused(start, tx, endpoint, r, n + 1);
    }
  }

  // ----- the decision on a transaction without a refused event

  /** What a transaction is, whether it leaves the report incomplete, and whether its movements
      are then not even replayed. */
  datatype Decision = Decision(
    status: FactStatus, kind: Option<Kind>, reason: Option<Reason>, match_: Option<Match>, incomplete: bool,
    skipped: bool)

  function Refused(kind: Option<Kind>, reason: Reason): Decision {
    Decision(Unavailable, kind, Some(reason), None, true, false)
  }

  /** The first well-formed preparation event. */
  function FirstPreparation(logs: seq<Log>): Option<CtfEvent> {
    if logs == [] then None
    else if logs[0].Noted? && logs[0].event.OfCtf? && logs[0].event.ctfEvent.ConditionPrepared? then
      Some(logs[0].event.ctfEvent)
    else FirstPreparation(logs[1..])
  }

  predicate HasReference(tx: Transaction, r: Report) { Reference(tx.hash, tx.index) in r.references }

  predicate PreparationCallFits(call: C.OperationCall, e: CtfEvent, tx: Transaction, r: Report)
    requires call.Prepare? && e.ConditionPrepared?
  {
    && tx.recoveredFrom.Some? && tx.replayProtected && tx.value == 0 && |tx.logs| == 1
    && call.count == 2 && e.count == 2 && e.condition == r.scope.condition
    && r.derive(e.oracle, e.question, e.count) == r.scope.condition
    && e.oracle == call.oracle && e.question == call.question
  }

  function DecidePrepare(call: C.OperationCall, tx: Transaction, r: Report, kind: Option<Kind>): Decision
    requires call.Prepare?
  {
    var e := FirstPreparation(tx.logs);
    if e.None? then Refused(kind, PreparationMissing).(skipped := true)
    else if !e.value.ConditionPrepared? || !PreparationCallFits(call, e.value, tx, r) then
      Refused(kind, PreparationCallMismatch)
    else Decision(Matched, Some(PrepareCondition), None, None, false, false)
  }

  predicate SentByOwner(tx: Transaction, r: Report) {
    tx.recoveredFrom == Some(r.scope.owner) && tx.replayProtected && tx.value == 0
  }

  function DecideOperation(checked: Option<Match>, tx: Transaction, r: Report, kind: Option<Kind>): Decision {
    if !SentByOwner(tx, r) then
      Refused(kind, SenderMismatch)
    else if checked.None? then
      Refused(kind, if r.upgrade then CollateralUpgrade else OperationMismatch)
    else if r.upgrade then
      Decision(Unavailable, Some(checked.value.kind), Some(CollateralUpgrade), checked, false, false)
    else
      Decision(Matched, Some(checked.value.kind), None, checked, false, false)
  }

  predicate IsOperationCall(call: Option<C.OperationCall>) {
    call.Some? && (call.value.Split? || call.value.Merge? || call.value.Redeem?)
  }

  function Unchanged(scan: Scan): Decision {
    Decision(if scan.resolved then Matched else OutsideScope, if scan.resolved then Some(ResolveCondition) else None,
             None, None, false, false)
  }

  function Decide(scan: Scan, tx: Transaction, r: Report, checked: Option<Match>): Decision {
    var plain, call := Unchanged(scan), DecodedCall(tx);
    if tx.to == Some(r.scope.ctf) then
      if call.Some? && call.value.Prepare? then DecidePrepare(call.value, tx, r, plain.kind)
      else if HasReference(tx, r) || IsOperationCall(call) then DecideOperation(checked, tx, r, plain.kind)
      else if HasLifecycle(tx.logs) then
        if plain.kind.None? then Refused(None, LifecycleWithoutCall) else plain.(status := Matched)
      else if call.Some? then Refused(plain.kind, WithoutOwnerScope)
      else if HasOperationEvent(tx.logs) then Refused(plain.kind, CallMalformed)
      else plain
    else if HasReference(tx, r) then
      if tx.to == Some(r.scope.exchange) then Refused(plain.kind, ExchangePending)
      else if HasOperationEvent(tx.logs) then Refused(plain.kind, UnsupportedTarget)
      else plain.(status := ExternalMovement, reason := Some(ExternalUnknown))
    else if scan.lifecycle then
      Refused(plain.kind, LifecycleElsewhere)
    else
      plain
  }

  /** The check of a direct operation against the state before the transaction. */
  function CheckedFor(state: State, scan: Scan, tx: Transaction, r: Report): Option<Match> {
    var call := DecodedCall(tx);
    if IsOperationCall(call) then
      DecodedIsEncodable(tx);
      CheckCall(tx.logs, r.scope, call.value, state.balances, scan.prepared, scan.payout)
    else
      None
  }

  lemma DecodedIsEncodable(tx: Transaction)
    requires DecodedCall(tx).Some?
    ensures C.Encodable(DecodedCall(tx).value)
  {
    C.CallRoundTrip(tx.input.GetOr([]), DecodedCall(tx).value);
  }

  // ----- one transaction

  function FactOf(block: Block, tx: Transaction, status: FactStatus, kind: Option<Kind>, reason: Option<Reason>,
                  match_: Option<Match>): Fact {
    Fact(block.number, tx.hash, tx.index, status, kind, reason, match_)
  }

  function StartScan(state: State, seen: Seen): Scan { Scan(state.prepared, state.payout, seen, false, false, None) }

  /** A refused event: the transaction is not replayed and both verdicts fall. */
  function AfterRefusal(state: State, scan: Scan, block: Block, tx: Transaction): State {
    State(state.balances, scan.prepared, scan.payout, false, false,
          state.facts + [FactOf(block, tx, Unavailable, if scan.resolved then Some(ResolveCondition) else None,
                                scan.refused, None)])
  }

  function AfterDecision(state: State, scan: Scan, block: Block, tx: Transaction, d: Decision,
                         replay: Inventory.Outcome): State {
    var failed := !d.skipped && replay.Refused?;
    var status := if failed then Unavailable else d.status;
    State(if d.skipped then state.balances else replay.balances, scan.prepared, scan.payout,
          state.complete && !d.incomplete && !failed,
          state.consistent && !failed && !(!d.skipped && scan.lifecycle && status.Unavailable?),
          state.facts + [FactOf(block, tx, status, d.kind, if failed then Some(ReplayFailed) else d.reason, d.match_)])
  }

  ghost function Visit(state: State, seen: Seen, block: Block, tx: Transaction, endpoint: Proof, r: Report)
    : (State, Seen)
  {
    if !tx.succeeded then
      (state.(facts := state.facts + [FactOf(block, tx, FailedNoAssetOperation, None, None, None)]), seen)
    else
      var scan := ScanLogs(StartScan(state, seen), tx, endpoint, r, |tx.logs|);
      if scan.refused.Some? then
        (AfterRefusal(state, scan, block, tx), scan.seen)
      else
        var d := Decide(scan, tx, r, CheckedFor(state, scan, tx, r));
        (AfterDecision(state, scan, block, tx, d, Inventory.Replay(state.balances, ReplayScope(r.scope), tx.logs)),
         scan.seen)
  }

  /** The check with the program's own redemption loop. */
  method CheckTransaction(state: State, scan: Scan, tx: Transaction, r: Report) returns (checked: Option<Match>)
    ensures checked == CheckedFor(state, scan, tx, r)
  {
    hide CheckRedeem, CheckSplitOrMerge, C.DecodeCall;
    var call := DecodedCall(tx);
    if !IsOperationCall(call) { return None; }
    DecodedIsEncodable(tx);
    if call.value.Redeem? {
      checked := CheckRedeemCall(tx.logs, r.scope, call.value, state.balances, scan.payout);
    } else {
      checked := CheckSplitOrMerge(tx.logs, r.scope, call.value, state.balances, scan.prepared);
    }
  }

  method VisitTransaction(state: State, seen: Seen, block: Block, tx: Transaction, endpoint: Proof, r: Report)
    returns (after: State, seenAfter: Seen)
    ensures (after, seenAfter) == Visit(state, seen, block, tx, endpoint, r)
  {
    hide ScanLogs, Decide, CheckedFor, Inventory.Replay;
    if !tx.succeeded {
      after := state.(facts := state.facts + [FactOf(block, tx, FailedNoAssetOperation, None, None, None)]);
      return after, seen;
    }
    var scan := ScanTransaction(StartScan(state, seen), tx, endpoint, r);
    if scan.refused.Some? { return AfterRefusal(state, scan, block, tx), scan.seen; }
    var checked := CheckTransaction(state, scan, tx, r);
    var d := Decide(scan, tx, r, checked);
    var replay := Inventory.ReplayLogs(state.balances, ReplayScope(r.scope), tx.logs);
    return AfterDecision(state, scan, block, tx, d, replay), scan.seen;
  }

  // ----- one block

  ghost function VisitAll(state: State, block: Block, endpoint: Proof, r: Report, n: nat): (State, Seen)
    requires n <= |block.transactions|
  {
    if n == 0 then
      (state, Seen(false, false))
    else
      var before := VisitAll(state, block, endpoint, r, n - 1);
      Visit(before.0, before.1, block, block.transactions[n - 1], endpoint, r)
  }

  /** At the end of a block: the balances must be the authenticated ones, and a change of the
      condition must have been seen as an event. */
  predicate BoundaryHolds(state: State, seen: Seen, block: Block, before: Proof, after: Proof) {
    && state.balances == block.authenticated
    && (before.status.Unprepared? && !after.status.Unprepared? ==> seen.preparation)
    && (!before.status.ResolvedBinary? && after.status.ResolvedBinary? ==> seen.resolution)
  }

  function CloseBlock(state: State, seen: Seen, block: Block, before: Proof, after: Proof): State {
    var holds := BoundaryHolds(state, seen, block, before, after);
    state.(complete := state.complete && holds, consistent := state.consistent && holds,
           prepared := Prepared(after.status),
           payout := if after.status.ResolvedBinary? then Some((after.numerators, after.denominator)) else state.payout)
  }

  ghost function BlockResult(state: State, block: Block, before: Proof, after: Proof, r: Report): State {
    var visited := VisitAll(state, block, after, r, |block.transactions|);
    CloseBlock(visited.0, visited.1, block, before, after)
  }

  method ClassifyBlock(state: State, block: Block, before: Proof, endpoint: Proof, r: Report) returns (after: State)
    ensures after == BlockResult(state, block, before, endpoint, r)
  {
    hide Visit;
    var seen := Seen(false, false);
    after := state;
    for n := 0 to |block.transactions|
      invariant (after, seen) == VisitAll(state, block, endpoint, r, n)
    {
      after, seen := VisitTransaction(after, seen, block, block.transactions[n], endpoint, r);
    }
    after := CloseBlock(after, seen, block, before, endpoint);
  }

  // ----- the report

  function Start(r: Report): State
    requires r.proofs != []
  {
    var first, complete := r.proofs[0], r.inventoryMatched && !r.upgrade;
    State(r.opening, Prepared(first.status),
          if first.status.ResolvedBinary? then Some((first.numerators, first.denominator)) else None,
          complete, complete, [])
  }

  ghost function Through(r: Report, k: nat): State
    requires r.Valid() && k <= |r.blocks|
  {
    if k == 0 then Start(r)
    else BlockResult(Through(r, k - 1), r.blocks[k - 1], r.proofs[k - 1], r.proofs[k], r)
  }

  method ClassifyReport(r: Report) returns (state: State)
    requires r.Valid()
    ensures state == Through(r, |r.blocks|)
  {
    hide BlockResult;
    state := Start(r);
    for k := 0 to |r.blocks|
      invariant state == Through(r, k)
    {
      state := ClassifyBlock(state, r.blocks[k], r.proofs[k], r.proofs[k + 1], r);
    }
  }
}
