/** Which transactions leave a report complete, shape by shape, and what a complete report then says
    of every preparation and resolution in its interval. */
module CtfLifecycle {
  import opened Words
  import opened Ledger
  import opened Receipts
  import opened CtfCondition
  import opened CtfOperations
  import opened CtfClassification
  import C = CtfCalls
  import Inventory

  // ----- lifecycle events

  function CtfEventOf(log: Log): Option<CtfEvent> {
    match log case Noted(OfCtf(e)) => Some(e) case _ => None
  }

  predicate IsPreparation(log: Log) { CtfEventOf(log).Some? && CtfEventOf(log).value.ConditionPrepared? }

  predicate IsResolution(log: Log) { CtfEventOf(log).Some? && CtfEventOf(log).value.ConditionResolved? }

  /** One of the two events, or a log with its topic and another layout. */
  predicate IsLifecycleLog(log: Log) {
    IsPreparation(log) || IsResolution(log)
    || CtfEventOf(log) == Some(Malformed(PreparationTopic)) || CtfEventOf(log) == Some(Malformed(ResolutionTopic))
  }

  ghost predicate NoLifecycle(logs: seq<Log>) { forall log :: log in logs ==> !IsLifecycleLog(log) }

  /** The condition is prepared by this event: it was not before, it is at the end of the block, and
      it is this condition, with two outcomes. */
  ghost predicate Prepares(log: Log, prepared: bool, endpoint: Proof, r: Report) {
    && IsPreparation(log) && !prepared
    && (endpoint.status == PreparedUnresolved || endpoint.status == ResolvedBinary)
    && var e := CtfEventOf(log).value;
       e.count == 2 && e.condition == r.scope.condition && r.derive(e.oracle, e.question, 2) == r.scope.condition
  }

  /** The condition is resolved by this event, the only log of its transaction: it was prepared and
      not resolved, it is resolved so at the end of the block, and its oracle reported so. */
  ghost predicate Resolves(tx: Transaction, prepared: bool, payout: PayoutState, endpoint: Proof, r: Report) {
    && |tx.logs| == 1 && IsResolution(tx.logs[0]) && prepared && payout.None?
    && var e := CtfEventOf(tx.logs[0]).value;
       && e.count == 2 && e.condition == r.scope.condition && r.derive(e.oracle, e.question, 2) == r.scope.condition
       && |e.numerators| == 2 && endpoint.status == ResolvedBinary
       && endpoint.numerators == Pair(e.numerators[0], e.numerators[1])
       && DecodedCall(tx) == Some(C.Resolve(e.question, e.numerators))
       && tx.recoveredFrom == Some(e.oracle) && tx.replayProtected && tx.value == 0
  }

  /** The only lifecycle event among some logs prepares the condition. */
  ghost predicate PreparesAlone(logs: seq<Log>, i: nat, prepared: bool, endpoint: Proof, r: Report) {
    i < |logs| && Prepares(logs[i], prepared, endpoint, r) && OthersAreQuiet(logs, i)
  }

  /** The lifecycle events of a transaction are in order: there is none, or one that prepares the
      condition, or one that resolves it. */
  ghost predicate LifecycleIsFine(tx: Transaction, prepared: bool, payout: PayoutState, endpoint: Proof, r: Report) {
    || NoLifecycle(tx.logs)
    || (exists i :: PreparesAlone(tx.logs, i, prepared, endpoint, r))
    || Resolves(tx, prepared, payout, endpoint, r)
  }

  // ----- the scan against that

  lemma OneLogScanned(scan: Scan, log: Log, tx: Transaction, endpoint: Proof, r: Report)
    requires scan.refused.None? && log in tx.logs
    ensures var next := ScanLog(scan, log, tx, endpoint, r);
      && (!IsLifecycleLog(log) ==> next == scan)
      && (IsPreparation(log) ==>
            (next.refused.None? <==> Prepares(log, scan.prepared, endpoint, r))
            && (next.refused.None? ==>
                  next == scan.(prepared := true, seen := scan.seen.(preparation := true), lifecycle := true)))
      && (IsResolution(log) ==>
            (next.refused.None? <==> Resolves(tx, scan.prepared, scan.payout, endpoint, r))
            && (next.refused.None? ==>
                  next == scan.(payout := Some((endpoint.numerators, endpoint.denominator)),
                                seen := scan.seen.(resolution := true), lifecycle := true, resolved := true)))
      && (IsLifecycleLog(log) && !IsPreparation(log) && !IsResolution(log) ==> next.refused.Some?)
  {
    hide C.DecodeCall, WordSpan;
  }

  function AfterPreparation(scan: Scan): Scan {
    scan.(prepared := true, seen := scan.seen.(preparation := true), lifecycle := true)
  }

  function AfterResolution(scan: Scan, endpoint: Proof): Scan {
    scan.(payout := Some((endpoint.numerators, endpoint.denominator)), seen := scan.seen.(resolution := true),
          lifecycle := true, resolved := true)
  }

  /** The scan of the first n logs, said without the loop. */
  ghost predicate ScannedSoFar(scan: Scan, start: Scan, tx: Transaction, endpoint: Proof, r: Report, n: nat)
    requires n <= |tx.logs|
  {
    var logs := tx.logs[..n];
    && (NoLifecycle(logs) ==> scan == start)
    && (forall i :: PreparesAlone(logs, i, start.prepared, endpoint, r) ==> scan == AfterPreparation(start))
    && (n == 1 && Resolves(tx, start.prepared, start.payout, endpoint, r) ==> scan == AfterResolution(start, endpoint))
    && (scan.refused.None? ==>
          NoLifecycle(logs) || (exists i :: PreparesAlone(logs, i, start.prepared, endpoint, r))
          || (n == 1 && Resolves(tx, start.prepared, start.payout, endpoint, r)))
  }

  lemma PrefixMore(logs: seq<Log>, n: nat)
    requires n < |logs|
    ensures logs[..n + 1] == logs[..n] + [logs[n]]
    ensures NoLifecycle(logs[..n + 1]) <==> NoLifecycle(logs[..n]) && !IsLifecycleLog(logs[n])
  {
    assert logs[..n + 1] == logs[..n] + [logs[n]];
    assert forall log :: log in logs[..n + 1] <==> log in logs[..n] || log == logs[n];
  }

  /** No other log than the i-th is a lifecycle event. */
  ghost predicate OthersAreQuiet(logs: seq<Log>, i: nat) {
    forall j :: 0 <= j < |logs| && j != i ==> !IsLifecycleLog(logs[j])
  }

  lemma QuietMore(logs: seq<Log>, n: nat, i: nat)
    requires n < |logs| && i <= n
    ensures OthersAreQuiet(logs[..n + 1], i) <==>
      if i == n then NoLifecycle(logs[..n]) else OthersAreQuiet(logs[..n], i) && !IsLifecycleLog(logs[n])
  {
    hide IsLifecycleLog;
    var some, more := logs[..n], logs[..n + 1];
    assert forall j :: 0 <= j < n ==> more[j] == some[j] && some[j] in some;
    assert more[n] == logs[n];
    if i == n && OthersAreQuiet(more, i) {
      forall log | log in some
        ensures !IsLifecycleLog(log)
      {
        var j :| 0 <= j < n && some[j] == log;
        assert !IsLifecycleLog(more[j]);
      }
    }
  }

  lemma AloneMore(logs: seq<Log>, n: nat, i: nat, prepared: bool, endpoint: Proof, r: Report)
    requires n < |logs|
    ensures PreparesAlone(logs[..n + 1], i, prepared, endpoint, r) <==>
      (i < n && PreparesAlone(logs[..n], i, prepared, endpoint, r) && !IsLifecycleLog(logs[n]))
      || (i == n && NoLifecycle(logs[..n]) && Prepares(logs[n], prepared, endpoint, r))
  {
    hide Prepares, IsLifecycleLog, NoLifecycle, OthersAreQuiet;
    if i <= n { QuietMore(logs, n, i); }
  }

  lemma {:induction false} ScanIsSoFar(start: Scan, tx: Transaction, endpoint: Proof, r: Report, n: nat)
    requires n <= |tx.logs| && start.refused.None?
    ensures ScannedSoFar(ScanLogs(start, tx, endpoint, r, n), start, tx, endpoint, r, n)
  {
    hide ScanLog, Prepares, Resolves, IsLifecycleLog, ScannedSoFar, PreparesAlone, NoLifecycle;
    if n == 0 {
      NothingScanned(start, tx, endpoint, r);
      assert ScanLogs(start, tx, endpoint, r, 0) == start;
    } else {
      var before, log := ScanLogs(start, tx, endpoint, r, n - 1), tx.logs[n - 1];
      ScanIsSoFar(start, tx, endpoint, r, n - 1);
      if before.refused.None? { OneLogScanned(before, log, tx, endpoint, r); }
      ScanStep(before, start, tx, endpoint, r, n - 1);
    }
  }

  lemma NothingScanned(start: Scan, tx: Transaction, endpoint: Proof, r: Report)
    ensures ScannedSoFar(start, start, tx, endpoint, r, 0)
  {
    hide Prepares, Resolves, IsLifecycleLog;
  }

  lemma PreparesOnce(log: Log, endpoint: Proof, r: Report)
    ensures !Prepares(log, true, endpoint, r)
    ensures forall prepared :: Prepares(log, prepared, endpoint, r) ==> IsLifecycleLog(log) && IsPreparation(log)
  {
  }

  lemma ResolvesAlone(tx: Transaction, prepared: bool, payout: PayoutState, endpoint: Proof, r: Report)
    requires Resolves(tx, prepared, payout, endpoint, r)
    ensures |tx.logs| == 1 && IsResolution(tx.logs[0]) && IsLifecycleLog(tx.logs[0]) && !IsPreparation(tx.logs[0])
    ensures prepared && payout.None?
  {
  }

  lemma ScanStep(before: Scan, start: Scan, tx: Transaction, endpoint: Proof, r: Report, n: nat)
    requires n < |tx.logs| && start.refused.None?
    requires ScannedSoFar(before, start, tx, endpoint, r, n)
    ensures ScannedSoFar(if before.refused.Some? then before else ScanLog(before, tx.logs[n], tx, endpoint, r),
                         start, tx, endpoint, r, n + 1)
  {
    hide ScanLog, Prepares, Resolves, IsLifecycleLog, IsPreparation, IsResolution, PreparesAlone, NoLifecycle;
    var log, some, logs := tx.logs[n], tx.logs[..n], tx.logs[..n + 1];
    var next := if before.refused.Some? then before else ScanLog(before, log, tx, endpoint, r);
    PrefixMore(tx.logs, n);
    PreparesOnce(log, endpoint, r);
    KindOfLog(log);
    assert tx.logs[..0] == [];
    AloneIsInside(some, start.prepared, endpoint, r);
    if before.refused.None? { OneLogScanned(before, log, tx, endpoint, r); }
    if Resolves(tx, start.prepared, start.payout, endpoint, r) {
      ResolvesAlone(tx, start.prepared, start.payout, endpoint, r);
    }
    forall i: nat | PreparesAlone(logs, i, start.prepared, endpoint, r)
      ensures next == AfterPreparation(start)
    {
      AloneMore(tx.logs, n, i, start.prepared, endpoint, r);
    }
    if next.refused.None? {
      if Resolves(tx, before.prepared, before.payout, endpoint, r) {
        ResolvesAlone(tx, before.prepared, before.payout, endpoint, r);
      }
      if NoLifecycle(some) {
        AloneMore(tx.logs, n, n, start.prepared, endpoint, r);
      } else if i: nat :| PreparesAlone(some, i, start.prepared, endpoint, r) {
        AloneMore(tx.logs, n, i, start.prepared, endpoint, r);
      }
    }
  }

  lemma AloneIsInside(logs: seq<Log>, prepared: bool, endpoint: Proof, r: Report)
    ensures forall i: nat :: PreparesAlone(logs, i, prepared, endpoint, r) ==> i < |logs| && !prepared
    ensures NoLifecycle([])
  {
  }

  lemma KindOfLog(log: Log)
    ensures IsPreparation(log) || IsResolution(log) ==> IsLifecycleLog(log)
    ensures !(IsPreparation(log) && IsResolution(log))
  {
  }

  /** The scan is not refused exactly when the events are in order, and then it says what they did. */
  lemma ScanIsFine(start: Scan, tx: Transaction, endpoint: Proof, r: Report)
    requires start.refused.None?
    ensures var scan := ScanLogs(start, tx, endpoint, r, |tx.logs|);
      && (scan.refused.None? <==> LifecycleIsFine(tx, start.prepared, start.payout, endpoint, r))
      && (NoLifecycle(tx.logs) ==> scan == start)
      && (forall i: nat :: PreparesAlone(tx.logs, i, start.prepared, endpoint, r) ==> scan == AfterPreparation(start))
      && (Resolves(tx, start.prepared, start.payout, endpoint, r) ==> scan == AfterResolution(start, endpoint))
  {
    hide ScanLogs, Prepares, Resolves, IsLifecycleLog, PreparesAlone, NoLifecycle;
    var scan := ScanLogs(start, tx, endpoint, r, |tx.logs|);
    ScanIsSoFar(start, tx, endpoint, r, |tx.logs|);
    assert tx.logs[..|tx.logs|] == tx.logs;
    if Resolves(tx, start.prepared, start.payout, endpoint, r) {
      ResolvesAlone(tx, start.prepared, start.payout, endpoint, r);
    }
  }

  // ----- the shapes that leave a report complete

  ghost predicate NoOperationEvent(logs: seq<Log>) {
    forall log :: log in logs ==> CtfEventOf(log).Some? ==>
      var e := CtfEventOf(log).value;
      !e.SetSplit? && !e.SetMerged? && !e.PayoutRedeemed? && e != Malformed(OperationTopic)
  }

  /** A stranger's business: no lifecycle event, no transfer of the owner, and nothing that the
      condition's contract was asked for. */
  ghost predicate IsOutside(tx: Transaction, r: Report) {
    && NoLifecycle(tx.logs) && !HasReference(tx, r)
    && (tx.to == Some(r.scope.ctf) ==> DecodedCall(tx).None? && NoOperationEvent(tx.logs))
  }

  /** The owner's positions move through some other contract. */
  ghost predicate IsExternal(state: State, tx: Transaction, endpoint: Proof, r: Report) {
    && tx.to != Some(r.scope.ctf) && tx.to != Some(r.scope.exchange) && HasReference(tx, r)
    && NoOperationEvent(tx.logs) && LifecycleIsFine(tx, state.prepared, state.payout, endpoint, r)
  }

  /** The owner splits, merges or redeems, and the logs are those of the operation. */
  ghost predicate IsOwnerOperation(state: State, tx: Transaction, r: Report) {
    && tx.to == Some(r.scope.ctf) && tx.recoveredFrom == Some(r.scope.owner) && tx.replayProtected && tx.value == 0
    && IsOperationCall(DecodedCall(tx)) && OperationOf(state, tx, r).Some?
  }

  ghost function OperationOf(state: State, tx: Transaction, r: Report): Option<Match>
    requires IsOperationCall(DecodedCall(tx))
  {
    DecodedIsEncodable(tx);
    CheckCall(tx.logs, r.scope, DecodedCall(tx).value, state.balances, state.prepared, state.payout)
  }

  /** The condition is prepared by a direct call, whose one log says so. */
  ghost predicate IsPreparationCall(state: State, tx: Transaction, endpoint: Proof, r: Report) {
    && tx.to == Some(r.scope.ctf) && |tx.logs| == 1 && Prepares(tx.logs[0], state.prepared, endpoint, r)
    && tx.recoveredFrom.Some? && tx.replayProtected && tx.value == 0
    && var e := CtfEventOf(tx.logs[0]).value; DecodedCall(tx) == Some(C.Prepare(e.oracle, e.question, 2))
  }

  /** The condition is resolved by a direct call of its oracle. */
  ghost predicate IsResolutionCall(state: State, tx: Transaction, endpoint: Proof, r: Report) {
    && tx.to == Some(r.scope.ctf) && !HasReference(tx, r)
    && Resolves(tx, state.prepared, state.payout, endpoint, r)
  }

  ghost predicate Replays(state: State, tx: Transaction, r: Report) {
    Inventory.Replay(state.balances, ReplayScope(r.scope), tx.logs).Applied?
  }

  /** A transaction that leaves a complete report complete. */
  ghost predicate IsExplained(state: State, tx: Transaction, endpoint: Proof, r: Report) {
    tx.succeeded ==>
      && Replays(state, tx, r)
      && (IsOutside(tx, r) || IsExternal(state, tx, endpoint, r) || IsOwnerOperation(state, tx, r)
          || IsPreparationCall(state, tx, endpoint, r) || IsResolutionCall(state, tx, endpoint, r))
  }

  // ----- the decision against the shapes

  lemma LifecycleIsSame(logs: seq<Log>)
    ensures HasLifecycle(logs) <==> !NoLifecycle(logs)
  {
    forall log | log in logs
      ensures IsLifecycleLog(log) <==> log.Noted? && log.event.OfCtf? && IsLifecycle(log.event.ctfEvent)
    {
    }
  }

  lemma OperationEventIsSame(logs: seq<Log>)
    ensures HasOperationEvent(logs) <==> !NoOperationEvent(logs)
  {
    forall log | log in logs
      ensures log.Noted? && log.event.OfCtf? && IsOperation(log.event.ctfEvent) <==>
        CtfEventOf(log).Some?
        && var e := CtfEventOf(log).value;
           e.SetSplit? || e.SetMerged? || e.PayoutRedeemed? || e == Malformed(OperationTopic)
    {
    }
  }

  /** The logs of a checked operation hold no lifecycle event. */
  lemma OperationHasNoLifecycle(logs: seq<Log>, s: Scope, call: C.OperationCall, balances: Balances, prepared: bool,
                                payout: PayoutState)
    requires call.Split? || call.Merge? ==> |call.partition| == 2
    requires CheckCall(logs, s, call, balances, prepared, payout).Some?
    ensures NoLifecycle(logs)
  {
    hide BurnSlots, BurnLogs, WordSpan, InScope, BalanceOf;
    if call.Redeem? {
      var b := BurnSlots(StartBurn(balances), call.sets, payout.value.0, payout.value.1).value;
      BurnsHaveNoLifecycle(b.burns, b.burned, s);
    }
  }

  lemma {:induction false} BurnsHaveNoLifecycle(burns: seq<Side>, stakes: Pair, s: Scope)
    ensures NoLifecycle(BurnLogs(burns, stakes, s))
  {
    hide WordSpan;
    if burns != [] {
      BurnsHaveNoLifecycle(burns[..|burns| - 1], stakes, s);
    }
  }

  ghost predicate HasShape(state: State, tx: Transaction, endpoint: Proof, r: Report) {
    || IsOutside(tx, r) || IsExternal(state, tx, endpoint, r) || IsOwnerOperation(state, tx, r)
    || IsPreparationCall(state, tx, endpoint, r) || IsResolutionCall(state, tx, endpoint, r)
  }

  ghost function ScanOf(state: State, seen: Seen, tx: Transaction, endpoint: Proof, r: Report): Scan {
    ScanLogs(StartScan(state, seen), tx, endpoint, r, |tx.logs|)
  }

  /** What the scan of a transaction in order says. */
  ghost predicate ScanSays(scan: Scan, state: State, tx: Transaction, endpoint: Proof, r: Report) {
    && scan.refused.None? && LifecycleIsFine(tx, state.prepared, state.payout, endpoint, r)
    && (scan.lifecycle <==> !NoLifecycle(tx.logs))
    && (scan.resolved <==> Resolves(tx, state.prepared, state.payout, endpoint, r))
    && (NoLifecycle(tx.logs) ==> scan.prepared == state.prepared && scan.payout == state.payout)
  }

  lemma ScanSaysSo(state: State, seen: Seen, tx: Transaction, endpoint: Proof, r: Report)
    ensures var scan := ScanOf(state, seen, tx, endpoint, r);
      && (scan.refused.None? <==> LifecycleIsFine(tx, state.prepared, state.payout, endpoint, r))
      && (scan.refused.None? ==> ScanSays(scan, state, tx, endpoint, r))
  {
    hide ScanLogs, Prepares, Resolves, IsLifecycleLog, NoLifecycle, PreparesAlone;
    ScanIsFine(StartScan(state, seen), tx, endpoint, r);
    if i: nat :| PreparesAlone(tx.logs, i, state.prepared, endpoint, r) {
      AloneIsLifecycle(tx, i, state.prepared, state.payout, endpoint, r);
    }
    if Resolves(tx, state.prepared, state.payout, endpoint, r) {
      ResolvesAlone(tx, state.prepared, state.payout, endpoint, r);
      OneIsLifecycle(tx.logs);
    }
  }

  lemma AloneIsLifecycle(tx: Transaction, i: nat, prepared: bool, payout: PayoutState, endpoint: Proof, r: Report)
    requires PreparesAlone(tx.logs, i, prepared, endpoint, r)
    ensures !NoLifecycle(tx.logs) && !Resolves(tx, prepared, payout, endpoint, r)
  {
    assert tx.logs[i] in tx.logs;
  }

  lemma OneIsLifecycle(logs: seq<Log>)
    requires |logs| == 1 && IsLifecycleLog(logs[0])
    ensures !NoLifecycle(logs)
  {
    assert logs[0] in logs;
  }

  /** Elsewhere than at the contract, a decision is complete for strangers and external movements. */
  lemma ElsewhereIsFine(scan: Scan, state: State, tx: Transaction, endpoint: Proof, r: Report)
    requires ScanSays(scan, state, tx, endpoint, r) && tx.to != Some(r.scope.ctf)
    ensures !Decide(scan, tx, r, CheckedFor(state, scan, tx, r)).incomplete <==> HasShape(state, tx, endpoint, r)
  {
    hide HasLifecycle, NoLifecycle, NoOperationEvent, HasOperationEvent, LifecycleIsFine, Resolves, HasReference;
    hide DecodedCall, CheckedFor;
    OperationEventIsSame(tx.logs);
  }

  lemma FirstPreparationIs(logs: seq<Log>)
    requires |logs| == 1
    ensures FirstPreparation(logs) == if IsPreparation(logs[0]) then CtfEventOf(logs[0]) else None
  {
    assert logs[1..] == [];
  }

  lemma {:induction false} NoLifecycleNoPreparation(logs: seq<Log>)
    requires NoLifecycle(logs)
    ensures FirstPreparation(logs) == None
  {
    if logs != [] {
      assert logs[0] in logs;
      NoLifecycleNoPreparation(logs[1..]);
    }
  }

  lemma PreparationIsFine(scan: Scan, state: State, tx: Transaction, endpoint: Proof, r: Report)
    requires ScanSays(scan, state, tx, endpoint, r) && tx.to == Some(r.scope.ctf)
    requires DecodedCall(tx).Some? && DecodedCall(tx).value.Prepare?
    ensures !Decide(scan, tx, r, CheckedFor(state, scan, tx, r)).incomplete <==>
      IsPreparationCall(state, tx, endpoint, r)
    ensures HasShape(state, tx, endpoint, r) <==> IsPreparationCall(state, tx, endpoint, r)
  {
    hide HasLifecycle, NoLifecycle, NoOperationEvent, HasOperationEvent, HasReference, FirstPreparation, WordSpan;
    hide C.DecodeCall;
    if |tx.logs| == 1 {
      FirstPreparationIs(tx.logs);
      OneIsFine(tx, state.prepared, state.payout, endpoint, r);
    }
  }

  /** A lone log in order is no lifecycle event, or one of the two. */
  lemma OneIsFine(tx: Transaction, prepared: bool, payout: PayoutState, endpoint: Proof, r: Report)
    requires |tx.logs| == 1 && LifecycleIsFine(tx, prepared, payout, endpoint, r)
    ensures !IsLifecycleLog(tx.logs[0]) || Prepares(tx.logs[0], prepared, endpoint, r)
      || Resolves(tx, prepared, payout, endpoint, r)
  {
    hide Prepares, Resolves, IsLifecycleLog;
    assert tx.logs[0] in tx.logs;
  }

  lemma DirectIsFine(scan: Scan, state: State, tx: Transaction, endpoint: Proof, r: Report)
    requires ScanSays(scan, state, tx, endpoint, r) && tx.to == Some(r.scope.ctf)
    requires DecodedCall(tx).Some? ==> !DecodedCall(tx).value.Prepare?
    ensures !Decide(scan, tx, r, CheckedFor(state, scan, tx, r)).incomplete <==> HasShape(state, tx, endpoint, r)
  {
    hide HasLifecycle, NoLifecycle, NoOperationEvent, HasOperationEvent, HasReference, LifecycleIsFine, WordSpan;
    hide C.DecodeCall, CheckCall;
    LifecycleIsSame(tx.logs);
    OperationEventIsSame(tx.logs);
    if Resolves(tx, state.prepared, state.payout, endpoint, r) {
      ResolvesAlone(tx, state.prepared, state.payout, endpoint, r);
      OneIsLifecycle(tx.logs);
    }
    if IsOperationCall(DecodedCall(tx)) {
      DecodedIsEncodable(tx);
      var call := DecodedCall(tx).value;
      if CheckCall(tx.logs, r.scope, call, state.balances, scan.prepared, scan.payout).Some? {
        OperationHasNoLifecycle(tx.logs, r.scope, call, state.balances, scan.prepared, scan.payout);
      }
      if CheckCall(tx.logs, r.scope, call, state.balances, state.prepared, state.payout).Some? {
        OperationHasNoLifecycle(tx.logs, r.scope, call, state.balances, state.prepared, state.payout);
      }
    }
  }

  /** A report that is complete stays complete exactly over a transaction of one of these shapes. */
  lemma StaysComplete(state: State, seen: Seen, block: Block, tx: Transaction, endpoint: Proof, r: Report)
    ensures Visit(state, seen, block, tx, endpoint, r).0.complete <==>
      state.complete && IsExplained(state, tx, endpoint, r)
  {
    hide ScanLogs, Decide, CheckedFor, Inventory.Replay, LifecycleIsFine, HasReference, NoLifecycle, NoOperationEvent;
    hide DecodedCall, IsPreparationCall, IsResolutionCall, IsOwnerOperation, IsExternal, IsOutside, WordSpan;
    var scan := ScanOf(state, seen, tx, endpoint, r);
    ScanSaysSo(state, seen, tx, endpoint, r);
    DecisionIsLinkedHere(scan, tx, r, CheckedFor(state, scan, tx, r));
    if scan.refused.Some? {
      if HasShape(state, tx, endpoint, r) { ShapesAreFine(state, tx, endpoint, r); }
    } else if tx.to != Some(r.scope.ctf) {
      ElsewhereIsFine(scan, state, tx, endpoint, r);
    } else if DecodedCall(tx).Some? && DecodedCall(tx).value.Prepare? {
      PreparationIsFine(scan, state, tx, endpoint, r);
    } else {
      DirectIsFine(scan, state, tx, endpoint, r);
    }
  }

  lemma DecisionIsLinkedHere(scan: Scan, tx: Transaction, r: Report, checked: Option<Match>)
    ensures Decide(scan, tx, r, checked).skipped ==> Decide(scan, tx, r, checked).incomplete
  {
    hide HasLifecycle, HasOperationEvent, HasReference, SentByOwner, FirstPreparation, DecodedCall, WordSpan;
  }

  /** A transaction of any of the shapes has its lifecycle events in order. */
  lemma ShapesAreFine(state: State, tx: Transaction, endpoint: Proof, r: Report)
    requires HasShape(state, tx, endpoint, r)
    ensures LifecycleIsFine(tx, state.prepared, state.payout, endpoint, r)
  {
    hide NoLifecycle, NoOperationEvent, HasReference, Prepares, Resolves, C.DecodeCall, CheckCall, WordSpan;
    if IsOwnerOperation(state, tx, r) {
      DecodedIsEncodable(tx);
      OperationHasNoLifecycle(tx.logs, r.scope, DecodedCall(tx).value, state.balances, state.prepared, state.payout);
    }
    if IsPreparationCall(state, tx, endpoint, r) {
      assert PreparesAlone(tx.logs, 0, state.prepared, endpoint, r);
    }
  }

  // ----- complete runs

  ghost function StateAt(r: Report, k: nat, t: nat): State
    requires r.Valid() && k < |r.blocks| && t <= |r.blocks[k].transactions|
  {
    VisitAll(Through(r, k), r.blocks[k], r.proofs[k + 1], r, t).0
  }

  /** Every transaction of a block is explained, and the block ends as authenticated. */
  ghost predicate BlockIsExplained(r: Report, k: nat)
    requires r.Valid() && k < |r.blocks|
  {
    var block, n := r.blocks[k], |r.blocks[k].transactions|;
    && (forall t :: 0 <= t < n ==> IsExplained(StateAt(r, k, t), block.transactions[t], r.proofs[k + 1], r))
    && StateAt(r, k, n).balances == block.authenticated && TurnsAreSeen(block, r.proofs[k], r.proofs[k + 1])
  }

  /** A condition that turns prepared, or resolved, over a block has its event in it. */
  ghost predicate TurnsAreSeen(block: Block, before: Proof, after: Proof) {
    && (before.status == Unprepared && after.status != Unprepared ==>
          exists t :: 0 <= t < |block.transactions| && HasEvent(block.transactions[t], PrepareCondition))
    && (before.status != ResolvedBinary && after.status == ResolvedBinary ==>
          exists t :: 0 <= t < |block.transactions| && HasEvent(block.transactions[t], ResolveCondition))
  }

  // ----- what an explained transaction does to the record

  /** Balances follow the logs, and preparation and payout follow the events. */
  lemma ExplainedStep(state: State, seen: Seen, block: Block, tx: Transaction, endpoint: Proof, r: Report)
    requires state.complete && IsExplained(state, tx, endpoint, r)
    ensures var (next, after) := Visit(state, seen, block, tx, endpoint, r);
      && next.complete && (!tx.succeeded ==> next.balances == state.balances)
      && (tx.succeeded ==>
            next.balances == Inventory.Replay(state.balances, ReplayScope(r.scope), tx.logs).balances)
      && next.prepared == (state.prepared || HasEvent(tx, PrepareCondition))
      && next.payout == (if HasEvent(tx, ResolveCondition) then Some((endpoint.numerators, endpoint.denominator))
                         else state.payout)
      && after.preparation == (seen.preparation || HasEvent(tx, PrepareCondition))
      && after.resolution == (seen.resolution || HasEvent(tx, ResolveCondition))
  {
    StaysComplete(state, seen, block, tx, endpoint, r);
    hide IsExplained, Inventory.Replay, ScanLogs, Decide, CheckedFor, LifecycleIsFine, HasEvent, WordSpan;
    if tx.succeeded {
      var scan := ScanOf(state, seen, tx, endpoint, r);
      ScanSaysSo(state, seen, tx, endpoint, r);
      DecisionIsLinkedHere(scan, tx, r, CheckedFor(state, scan, tx, r));
      FineScanSays(scan, state, seen, tx, endpoint, r);
    } else {
      FailedHasNone(tx);
    }
  }

  lemma FailedHasNone(tx: Transaction)
    requires !tx.succeeded
    ensures !HasEvent(tx, PrepareCondition) && !HasEvent(tx, ResolveCondition)
  {
  }

  lemma FineScanSays(scan: Scan, state: State, seen: Seen, tx: Transaction, endpoint: Proof, r: Report)
    requires tx.succeeded && scan == ScanOf(state, seen, tx, endpoint, r) && scan.refused.None?
    ensures scan.prepared == (state.prepared || HasEvent(tx, PrepareCondition))
    ensures scan.payout == (if HasEvent(tx, ResolveCondition) then Some((endpoint.numerators, endpoint.denominator))
                            else state.payout)
    ensures scan.seen.preparation == (seen.preparation || HasEvent(tx, PrepareCondition))
    ensures scan.seen.resolution == (seen.resolution || HasEvent(tx, ResolveCondition))
  {
    hide ScanLogs, Prepares, Resolves, IsPreparation, IsResolution, IsLifecycleLog, NoLifecycle, HasEvent;
    hide PreparesAlone;
    var start := StartScan(state, seen);
    ScanIsFine(start, tx, endpoint, r);
    ScanIsSoFar(start, tx, endpoint, r, |tx.logs|);
    assert tx.logs[..|tx.logs|] == tx.logs;
    if NoLifecycle(tx.logs) {
      QuietHasNone(tx);
    } else if i: nat :| PreparesAlone(tx.logs, i, state.prepared, endpoint, r) {
      AloneHasOne(tx, i, state.prepared, endpoint, r);
    } else {
      ResolvesHasOne(tx, state.prepared, state.payout, endpoint, r);
    }
  }

  lemma QuietHasNone(tx: Transaction)
    requires NoLifecycle(tx.logs)
    ensures !HasEvent(tx, PrepareCondition) && !HasEvent(tx, ResolveCondition)
  {
    hide CtfEventOf;
  }

  lemma AloneHasOne(tx: Transaction, i: nat, prepared: bool, endpoint: Proof, r: Report)
    requires tx.succeeded && PreparesAlone(tx.logs, i, prepared, endpoint, r)
    ensures HasEvent(tx, PrepareCondition) && !HasEvent(tx, ResolveCondition)
  {
    assert tx.logs[i] in tx.logs && IsEventOf(tx.logs[i], PrepareCondition);
    forall log | log in tx.logs
      ensures !IsEventOf(log, ResolveCondition)
    {
      var j :| 0 <= j < |tx.logs| && tx.logs[j] == log;
    }
  }

  lemma ResolvesHasOne(tx: Transaction, prepared: bool, payout: PayoutState, endpoint: Proof, r: Report)
    requires tx.succeeded && Resolves(tx, prepared, payout, endpoint, r)
    ensures !HasEvent(tx, PrepareCondition) && HasEvent(tx, ResolveCondition)
  {
    hide WordSpan, C.DecodeCall, DecodedCall, CtfEventOf;
    assert tx.logs[0] in tx.logs && IsEventOf(tx.logs[0], ResolveCondition);
    KindOfLog(tx.logs[0]);
    forall log | log in tx.logs
      ensures log == tx.logs[0]
    {
    }
    hide Resolves, IsPreparation, IsResolution;
  }

  /** Over explained transactions the block has seen exactly the events that there are. */
  lemma {:induction false} ExplainedIsSeen(state: State, block: Block, endpoint: Proof, r: Report, n: nat)
    requires n <= |block.transactions| && VisitAll(state, block, endpoint, r, n).0.complete
    ensures var seen := VisitAll(state, block, endpoint, r, n).1;
      && (seen.preparation <==> exists t :: 0 <= t < n && HasEvent(block.transactions[t], PrepareCondition))
      && (seen.resolution <==> exists t :: 0 <= t < n && HasEvent(block.transactions[t], ResolveCondition))
  {
    hide Visit, IsExplained, HasEvent, Inventory.Replay, ReplayScope;
    if n > 0 {
      var before, tx := VisitAll(state, block, endpoint, r, n - 1), block.transactions[n - 1];
      StaysComplete(before.0, before.1, block, tx, endpoint, r);
      ExplainedIsSeen(state, block, endpoint, r, n - 1);
      ExplainedStep(before.0, before.1, block, tx, endpoint, r);
      OneMoreHas(block, n, PrepareCondition);
      OneMoreHas(block, n, ResolveCondition);
    }
  }

  lemma OneMoreHas(block: Block, n: nat, kind: Kind)
    requires 0 < n <= |block.transactions|
    ensures (exists t :: 0 <= t < n && HasEvent(block.transactions[t], kind)) <==>
      (exists t :: 0 <= t < n - 1 && HasEvent(block.transactions[t], kind)) || HasEvent(block.transactions[n - 1], kind)
  {
    hide HasEvent;
    if t :| 0 <= t < n && HasEvent(block.transactions[t], kind) {
      assert t < n - 1 || t == n - 1;
    }
  }

  lemma {:induction false} StaysCompleteAll(state: State, block: Block, endpoint: Proof, r: Report, n: nat)
    requires n <= |block.transactions|
    ensures VisitAll(state, block, endpoint, r, n).0.complete <==>
      state.complete
      && forall t :: 0 <= t < n ==>
           IsExplained(VisitAll(state, block, endpoint, r, t).0, block.transactions[t], endpoint, r)
  {
    hide Visit, IsExplained;
    if n > 0 {
      var before := VisitAll(state, block, endpoint, r, n - 1);
      StaysCompleteAll(state, block, endpoint, r, n - 1);
      StaysComplete(before.0, before.1, block, block.transactions[n - 1], endpoint, r);
    }
  }

  /** A report is complete exactly when its inventory matches, no upgrade is seen, and every
      transaction and every boundary of every block is explained. */
  lemma {:induction false} CompleteExactly(r: Report, k: nat)
    requires r.Valid() && k <= |r.blocks|
    ensures Through(r, k).complete <==>
      r.inventoryMatched && !r.upgrade && forall j :: 0 <= j < k ==> BlockIsExplained(r, j)
  {
    hide BlockIsExplained, BlockResult, VisitAll, StateAt;
    if k > 0 {
      CompleteExactly(r, k - 1);
      BlockStaysComplete(r, k - 1);
    }
  }

  lemma BlockStaysComplete(r: Report, k: nat)
    requires r.Valid() && k < |r.blocks|
    ensures Through(r, k + 1).complete <==> Through(r, k).complete && BlockIsExplained(r, k)
  {
    hide VisitAll, IsExplained, HasEvent;
    var n := |r.blocks[k].transactions|;
    StaysCompleteAll(Through(r, k), r.blocks[k], r.proofs[k + 1], r, n);
    if VisitAll(Through(r, k), r.blocks[k], r.proofs[k + 1], r, n).0.complete {
      ExplainedIsSeen(Through(r, k), r.blocks[k], r.proofs[k + 1], r, n);
    }
  }

  /** A complete report goes on from what is authenticated: the balances and the condition. */
  lemma BlockEndsAsProved(r: Report, k: nat)
    requires r.Valid() && k < |r.blocks| && Through(r, k + 1).complete
    ensures var state, proof := Through(r, k + 1), r.proofs[k + 1];
      && state.balances == r.blocks[k].authenticated
      && (state.prepared <==> proof.status == PreparedUnresolved || proof.status == ResolvedBinary)
      && (proof.status == ResolvedBinary ==> state.payout == Some((proof.numerators, proof.denominator)))
  {
    hide VisitAll;
  }

  // ----- events and facts

  predicate IsEventOf(log: Log, kind: Kind) {
    (kind == PrepareCondition && IsPreparation(log)) || (kind == ResolveCondition && IsResolution(log))
  }

  ghost function EventsIn(logs: seq<Log>, kind: Kind): nat {
    if logs == [] then 0
    else EventsIn(logs[..|logs| - 1], kind) + if IsEventOf(logs[|logs| - 1], kind) then 1 else 0
  }

  /** The transactions whose lifecycle events count: all but those that move the owner's positions
      through another contract. */
  predicate Counts(tx: Transaction, r: Report) {
    tx.succeeded && (tx.to == Some(r.scope.ctf) || !HasReference(tx, r))
  }

  predicate IsMatchedAs(f: Fact, kind: Kind) { f.status == Matched && f.kind == Some(kind) }

  ghost function CountMatched(facts: seq<Fact>, kind: Kind): nat {
    if facts == [] then 0
    else CountMatched(facts[..|facts| - 1], kind) + if IsMatchedAs(facts[|facts| - 1], kind) then 1 else 0
  }

  lemma CountMatchedMore(facts: seq<Fact>, f: Fact, kind: Kind)
    ensures CountMatched(facts + [f], kind) == CountMatched(facts, kind) + if IsMatchedAs(f, kind) then 1 else 0
  {
    assert (facts + [f])[..|facts|] == facts;
  }

  lemma {:induction false} NoLifecycleNoEvents(logs: seq<Log>, kind: Kind)
    requires NoLifecycle(logs)
    ensures EventsIn(logs, kind) == 0
  {
    if logs != [] {
      assert logs[|logs| - 1] in logs;
      NoLifecycleNoEvents(logs[..|logs| - 1], kind);
    }
  }

  lemma OneEvent(logs: seq<Log>, kind: Kind)
    requires |logs| == 1
    ensures EventsIn(logs, kind) == if IsEventOf(logs[0], kind) then 1 else 0
  {
    assert logs[..0] == [];
  }

  ghost predicate IsLifecycleKind(kind: Kind) { kind == PrepareCondition || kind == ResolveCondition }

  /** The call that each kind of event belongs to. */
  ghost predicate IsCallOf(state: State, tx: Transaction, endpoint: Proof, r: Report, kind: Kind) {
    (kind == PrepareCondition && IsPreparationCall(state, tx, endpoint, r))
    || (kind == ResolveCondition && IsResolutionCall(state, tx, endpoint, r))
  }

  /** In an explained transaction that counts, there is one event of a kind for the call of that
      kind, and no other lifecycle event. */
  lemma EventsAreCalls(state: State, tx: Transaction, endpoint: Proof, r: Report, kind: Kind)
    requires IsExplained(state, tx, endpoint, r) && Counts(tx, r) && IsLifecycleKind(kind)
    ensures EventsIn(tx.logs, kind) == if IsCallOf(state, tx, endpoint, r, kind) then 1 else 0
    ensures NoLifecycle(tx.logs) || IsPreparationCall(state, tx, endpoint, r)
            || IsResolutionCall(state, tx, endpoint, r)
  {
    hide Inventory.Replay, LifecycleIsFine, HasReference, NoLifecycle, NoOperationEvent, IsOperationCall, OperationOf;
    hide DecodedCall, WordSpan;
    if IsOwnerOperation(state, tx, r) {
      OperationIsQuiet(state, tx, r);
    }
    if |tx.logs| == 1 && IsLifecycleLog(tx.logs[0]) { OneIsLifecycle(tx.logs); }
    if NoLifecycle(tx.logs) {
      NoLifecycleNoEvents(tx.logs, kind);
    } else {
      OneEvent(tx.logs, kind);
    }
  }

  lemma OperationIsQuiet(state: State, tx: Transaction, r: Report)
    requires IsOwnerOperation(state, tx, r)
    ensures NoLifecycle(tx.logs)
  {
    hide NoLifecycle, DecodedCall, CheckCall, WordSpan;
    DecodedIsEncodable(tx);
    OperationHasNoLifecycle(tx.logs, r.scope, DecodedCall(tx).value, state.balances, state.prepared, state.payout);
  }

  ghost predicate DecidedAs(d: Decision, kind: Kind) { d.status == Matched && d.kind == Some(kind) }

  /** A complete decision is a matched preparation or resolution exactly for the calls of these. */
  lemma DecisionIsCall(scan: Scan, state: State, tx: Transaction, endpoint: Proof, r: Report)
    requires ScanSays(scan, state, tx, endpoint, r)
    requires !Decide(scan, tx, r, CheckedFor(state, scan, tx, r)).incomplete
    ensures var d := Decide(scan, tx, r, CheckedFor(state, scan, tx, r));
      && (DecidedAs(d, PrepareCondition) <==> IsPreparationCall(state, tx, endpoint, r))
      && (DecidedAs(d, ResolveCondition) <==> IsResolutionCall(state, tx, endpoint, r))
  {
    if tx.to == Some(r.scope.ctf) && DecodedCall(tx).Some? && DecodedCall(tx).value.Prepare? {
      PreparationIsFine(scan, state, tx, endpoint, r);
      PreparationKind(scan, state, tx, endpoint, r);
    } else {
      OtherKind(scan, state, tx, endpoint, r);
    }
  }

  lemma PreparationKind(scan: Scan, state: State, tx: Transaction, endpoint: Proof, r: Report)
    requires tx.to == Some(r.scope.ctf) && DecodedCall(tx).Some? && DecodedCall(tx).value.Prepare?
    requires !Decide(scan, tx, r, CheckedFor(state, scan, tx, r)).incomplete
    ensures DecidedAs(Decide(scan, tx, r, CheckedFor(state, scan, tx, r)), PrepareCondition)
    ensures !IsResolutionCall(state, tx, endpoint, r)
  {
    hide FirstPreparation, C.DecodeCall, HasReference, CheckedFor, WordSpan;
  }

  lemma CheckedKind(logs: seq<Log>, s: Scope, call: C.OperationCall, balances: Balances, prepared: bool,
                    payout: PayoutState)
    requires call.Split? || call.Merge? ==> |call.partition| == 2
    requires CheckCall(logs, s, call, balances, prepared, payout).Some?
    ensures !IsLifecycleKind(CheckCall(logs, s, call, balances, prepared, payout).value.kind)
  {
    hide BurnSlots, RedeemLogs, AreSplitLogs, AreMergeLogs, BalanceOf, InScope, WordSpan;
  }

  lemma OtherKind(scan: Scan, state: State, tx: Transaction, endpoint: Proof, r: Report)
    requires ScanSays(scan, state, tx, endpoint, r)
    requires !(tx.to == Some(r.scope.ctf) && DecodedCall(tx).Some? && DecodedCall(tx).value.Prepare?)
    requires !Decide(scan, tx, r, CheckedFor(state, scan, tx, r)).incomplete
    ensures !DecidedAs(Decide(scan, tx, r, CheckedFor(state, scan, tx, r)), PrepareCondition)
    ensures !IsPreparationCall(state, tx, endpoint, r)
    ensures DecidedAs(Decide(scan, tx, r, CheckedFor(state, scan, tx, r)), ResolveCondition)
      <==> IsResolutionCall(state, tx, endpoint, r)
  {
    hide HasLifecycle, NoLifecycle, HasOperationEvent, HasReference, LifecycleIsFine, CheckCall, C.DecodeCall;
    hide IsLifecycleKind, WordSpan;
    LifecycleIsSame(tx.logs);
    KindsOfLifecycle();
    if Resolves(tx, state.prepared, state.payout, endpoint, r) {
      ResolvesAlone(tx, state.prepared, state.payout, endpoint, r);
      OneIsLifecycle(tx.logs);
    }
    if IsOperationCall(DecodedCall(tx)) {
      DecodedIsEncodable(tx);
      var call := DecodedCall(tx).value;
      if CheckCall(tx.logs, r.scope, call, state.balances, scan.prepared, scan.payout).Some? {
        CheckedKind(tx.logs, r.scope, call, state.balances, scan.prepared, scan.payout);
      }
    }
  }

  lemma KindsOfLifecycle()
    ensures forall kind :: IsLifecycleKind(kind) <==> kind == PrepareCondition || kind == ResolveCondition
  {
  }

  /** A visit that stays complete appends the fact of its transaction, and the fact is a matched
      preparation or resolution exactly for the calls of these. */
  lemma FactOfVisit(state: State, seen: Seen, block: Block, tx: Transaction, endpoint: Proof, r: Report, kind: Kind)
    requires Visit(state, seen, block, tx, endpoint, r).0.complete && IsLifecycleKind(kind)
    ensures var facts := Visit(state, seen, block, tx, endpoint, r).0.facts;
      && |facts| == |state.facts| + 1 && facts == state.facts + [facts[|state.facts|]]
      && var f := facts[|state.facts|];
         && f.blockNumber == block.number && f.transactionHash == tx.hash && f.transactionIndex == tx.index
         && (IsMatchedAs(f, kind) <==> Counts(tx, r) && IsCallOf(state, tx, endpoint, r, kind))
  {
    hide ScanLogs, Decide, CheckedFor, Inventory.Replay, LifecycleIsFine, HasReference, NoLifecycle;
    hide DecodedCall, Prepares, Resolves, WordSpan;
    var scan := ScanOf(state, seen, tx, endpoint, r);
    if tx.succeeded {
      ScanSaysSo(state, seen, tx, endpoint, r);
      if scan.refused.None? {
        DecisionIsLinkedHere(scan, tx, r, CheckedFor(state, scan, tx, r));
        DecisionIsCall(scan, state, tx, endpoint, r);
      }
    }
  }

  // ----- the counts over a run

  ghost function EventsOfBlock(block: Block, n: nat, r: Report, kind: Kind): nat
    requires n <= |block.transactions|
  {
    if n == 0 then
      0
    else
      var tx := block.transactions[n - 1];
      EventsOfBlock(block, n - 1, r, kind) + if Counts(tx, r) then EventsIn(tx.logs, kind) else 0
  }

  /** The preparation or resolution events of the first k blocks that count. */
  ghost function EventsOf(r: Report, k: nat, kind: Kind): nat
    requires k <= |r.blocks|
  {
    if k == 0 then 0
    else EventsOf(r, k - 1, kind) + EventsOfBlock(r.blocks[k - 1], |r.blocks[k - 1].transactions|, r, kind)
  }

  lemma {:induction false} BlockCounts(state: State, block: Block, endpoint: Proof, r: Report, n: nat, kind: Kind)
    requires n <= |block.transactions| && IsLifecycleKind(kind) && VisitAll(state, block, endpoint, r, n).0.complete
    ensures CountMatched(VisitAll(state, block, endpoint, r, n).0.facts, kind)
      == CountMatched(state.facts, kind) + EventsOfBlock(block, n, r, kind)
  {
    hide Visit, IsExplained, EventsIn, Counts, IsCallOf, IsMatchedAs, CountMatched, IsLifecycleKind;
    if n > 0 {
      var before, tx := VisitAll(state, block, endpoint, r, n - 1), block.transactions[n - 1];
      StaysComplete(before.0, before.1, block, tx, endpoint, r);
      BlockCounts(state, block, endpoint, r, n - 1, kind);
      FactOfVisit(before.0, before.1, block, tx, endpoint, r, kind);
      if Counts(tx, r) { EventsAreCalls(before.0, tx, endpoint, r, kind); }
      CountMatchedMore(before.0.facts, VisitAll(state, block, endpoint, r, n).0.facts[|before.0.facts|], kind);
    }
  }

  /** In a complete report the matched preparations, and the matched resolutions, are as many as the
      events of that kind. */
  lemma {:induction false} MatchedAreEvents(r: Report, k: nat, kind: Kind)
    requires r.Valid() && k <= |r.blocks| && IsLifecycleKind(kind) && Through(r, k).complete
    ensures CountMatched(Through(r, k).facts, kind) == EventsOf(r, k, kind)
  {
    hide VisitAll, CountMatched, EventsOfBlock, IsLifecycleKind, BlockIsExplained, BoundaryHolds;
    if k == 0 {
      NoneMatched(kind);
    } else {
      BlockStaysComplete(r, k - 1);
      VisitedComplete(r, k - 1);
      MatchedAreEvents(r, k - 1, kind);
      BlockCounts(Through(r, k - 1), r.blocks[k - 1], r.proofs[k], r, |r.blocks[k - 1].transactions|, kind);
    }
  }

  lemma NoneMatched(kind: Kind)
    ensures CountMatched([], kind) == 0
  {
  }

  lemma VisitedComplete(r: Report, k: nat)
    requires r.Valid() && k < |r.blocks| && Through(r, k + 1).complete
    ensures StateAt(r, k, |r.blocks[k].transactions|).complete
  {
    hide VisitAll, BoundaryHolds;
  }

  // ----- every event has its fact

  lemma {:induction false} FactsGrow(state: State, block: Block, endpoint: Proof, r: Report, n: nat)
    requires n <= |block.transactions| && VisitAll(state, block, endpoint, r, n).0.complete
    ensures var facts := VisitAll(state, block, endpoint, r, n).0.facts;
      |facts| == |state.facts| + n && state.facts <= facts
  {
    hide Visit, IsExplained, IsCallOf, Counts;
    if n > 0 {
      var before, tx := VisitAll(state, block, endpoint, r, n - 1), block.transactions[n - 1];
      StaysComplete(before.0, before.1, block, tx, endpoint, r);
      FactsGrow(state, block, endpoint, r, n - 1);
      FactOfVisit(before.0, before.1, block, tx, endpoint, r, PrepareCondition);
    }
  }

  /** The t-th transaction of a block, in the facts: complete visits never change a fact again. */
  lemma {:induction false} FactStays(state: State, block: Block, endpoint: Proof, r: Report, t: nat, n: nat, kind: Kind)
    requires t < n <= |block.transactions| && VisitAll(state, block, endpoint, r, n).0.complete && IsLifecycleKind(kind)
    ensures VisitAll(state, block, endpoint, r, t).0.complete
    ensures var facts, at := VisitAll(state, block, endpoint, r, n).0.facts, |state.facts| + t;
      && at < |facts|
      && FactNames(facts[at], block, block.transactions[t])
      && (IsMatchedAs(facts[at], kind) <==>
            Counts(block.transactions[t], r)
            && IsCallOf(VisitAll(state, block, endpoint, r, t).0, block.transactions[t], endpoint, r, kind))
      && IsExplained(VisitAll(state, block, endpoint, r, t).0, block.transactions[t], endpoint, r)
  {
    hide Visit, IsExplained, IsCallOf, Counts, IsMatchedAs, IsLifecycleKind;
    var before, tx := VisitAll(state, block, endpoint, r, n - 1), block.transactions[n - 1];
    StaysComplete(before.0, before.1, block, tx, endpoint, r);
    FactsGrow(state, block, endpoint, r, n - 1);
    FactOfVisit(before.0, before.1, block, tx, endpoint, r, kind);
    if t < n - 1 { FactStays(state, block, endpoint, r, t, n - 1, kind); }
  }

  ghost predicate FactNames(f: Fact, block: Block, tx: Transaction) {
    f.blockNumber == block.number && f.transactionHash == tx.hash && f.transactionIndex == tx.index
  }

  /** In a complete block, a successful transaction with a lifecycle event was sent to the contract,
      unless it moves the owner's positions elsewhere; and its fact is a matched preparation or
      resolution, as the event is. */
  lemma EventIsMatched(r: Report, k: nat, t: nat, log: Log)
    requires r.Valid() && k < |r.blocks| && t < |r.blocks[k].transactions| && Through(r, k + 1).complete
    requires var tx := r.blocks[k].transactions[t]; Counts(tx, r) && log in tx.logs && IsLifecycleLog(log)
    ensures r.blocks[k].transactions[t].to == Some(r.scope.ctf)
    ensures IsPreparation(log) || IsResolution(log)
    ensures var facts, at := Through(r, k + 1).facts, |Through(r, k).facts| + t;
      && at < |facts| && FactNames(facts[at], r.blocks[k], r.blocks[k].transactions[t])
      && IsMatchedAs(facts[at], if IsPreparation(log) then PrepareCondition else ResolveCondition)
  {
    var block, n, endpoint := r.blocks[k], |r.blocks[k].transactions|, r.proofs[k + 1];
    BlockWasVisited(r, k);
    hide *;
    VisitedEventIsMatched(Through(r, k), block, endpoint, r, t, n, log);
  }

  /** What a complete block says comes from the visits of its transactions. */
  lemma BlockWasVisited(r: Report, k: nat)
    requires r.Valid() && k < |r.blocks| && Through(r, k + 1).complete
    ensures var visited := VisitAll(Through(r, k), r.blocks[k], r.proofs[k + 1], r, |r.blocks[k].transactions|).0;
      visited.complete && visited.facts == Through(r, k + 1).facts
  {
    hide VisitAll, BoundaryHolds;
  }

  lemma VisitedEventIsMatched(state: State, block: Block, endpoint: Proof, r: Report, t: nat, n: nat, log: Log)
    requires t < n <= |block.transactions| && VisitAll(state, block, endpoint, r, n).0.complete
    requires Counts(block.transactions[t], r) && log in block.transactions[t].logs && IsLifecycleLog(log)
    ensures block.transactions[t].to == Some(r.scope.ctf) && (IsPreparation(log) || IsResolution(log))
    ensures var facts, at := VisitAll(state, block, endpoint, r, n).0.facts, |state.facts| + t;
      && at < |facts| && FactNames(facts[at], block, block.transactions[t])
      && IsMatchedAs(facts[at], if IsPreparation(log) then PrepareCondition else ResolveCondition)
  {
    hide *;
    KindsOfLifecycle();
    var kind := if IsPreparation(log) then PrepareCondition else ResolveCondition;
    FactStays(state, block, endpoint, r, t, n, kind);
    EventMeansCall(VisitAll(state, block, endpoint, r, t).0, block.transactions[t], endpoint, r, log);
  }

  lemma EventMeansCall(state: State, tx: Transaction, endpoint: Proof, r: Report, log: Log)
    requires IsExplained(state, tx, endpoint, r) && Counts(tx, r) && log in tx.logs && IsLifecycleLog(log)
    ensures tx.to == Some(r.scope.ctf) && (IsPreparation(log) || IsResolution(log))
    ensures IsCallOf(state, tx, endpoint, r, if IsPreparation(log) then PrepareCondition else ResolveCondition)
  {
    hide IsExplained, NoLifecycle, IsLifecycleLog, IsPreparation, IsResolution, Prepares, Resolves, Counts;
    EventsAreCalls(state, tx, endpoint, r, PrepareCondition);
    SomeLifecycle(tx.logs, log);
    if |tx.logs| == 1 { assert log == tx.logs[0]; }
    CallsHaveOneLog(state, tx, endpoint, r);
  }

  lemma SomeLifecycle(logs: seq<Log>, log: Log)
    requires log in logs && IsLifecycleLog(log)
    ensures !NoLifecycle(logs)
  {
  }

  lemma CallsHaveOneLog(state: State, tx: Transaction, endpoint: Proof, r: Report)
    ensures IsPreparationCall(state, tx, endpoint, r) ==> |tx.logs| == 1 && IsPreparation(tx.logs[0])
    ensures IsResolutionCall(state, tx, endpoint, r) ==>
      |tx.logs| == 1 && IsResolution(tx.logs[0]) && !IsPreparation(tx.logs[0])
  {
    hide DecodedCall;
  }

  // ----- a condition that turns

  ghost predicate HasEvent(tx: Transaction, kind: Kind) {
    tx.succeeded && exists log :: log in tx.logs && IsEventOf(log, kind)
  }

  /** In a complete report, a block over which the condition turns prepared, or resolved, holds a
      successful transaction with that event. */
  lemma TurnsAreEvents(r: Report, k: nat)
    requires r.Valid() && k < |r.blocks| && Through(r, k + 1).complete
    ensures r.proofs[k].status == Unprepared && r.proofs[k + 1].status != Unprepared ==>
      exists t :: 0 <= t < |r.blocks[k].transactions| && HasEvent(r.blocks[k].transactions[t], PrepareCondition)
    ensures r.proofs[k].status != ResolvedBinary && r.proofs[k + 1].status == ResolvedBinary ==>
      exists t :: 0 <= t < |r.blocks[k].transactions| && HasEvent(r.blocks[k].transactions[t], ResolveCondition)
  {
    hide VisitAll, HasEvent, Through, IsExplained;
    BlockStaysComplete(r, k);
  }
}
