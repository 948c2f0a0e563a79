/** Replays every movement of the selected assets and compares the owner's reconstructed
    balances with the authenticated ones at every block boundary. */
module Inventory {
  import opened Words
  import opened Ledger
  import opened Receipts

  datatype AssetIndex = PositionA | PositionB | PusdCash

  datatype Reason = UnsupportedMovement | BalanceUnderflow | BalanceOverflow | LengthMismatch

  datatype Status =
    | Matched
    | Mismatch(blockNumber: U64, asset: AssetIndex, authenticated: U256, reconstructed: U256)
    | Unavailable(blockNumber: U64, reason: Reason)

  /** The owner, the two selected position ids, and the contracts of the cash and the positions. */
  datatype Scope = Scope(owner: Address, idA: U256, idB: U256, token: Token, book: Book)

  function AssetOf(s: Scope, i: AssetIndex): Asset {
    match i
    case PositionA => Position(s.book, s.idA)
    case PositionB => Position(s.book, s.idB)
    case PusdCash => Fungible(s.token)
  }

  function Get(b: Balances, i: AssetIndex): U256 {
    match i case PositionA => b.a case PositionB => b.b case PusdCash => b.cash
  }

  function Set(b: Balances, i: AssetIndex, value: U256): Balances {
    match i
    case PositionA => b.(a := value)
    case PositionB => b.(b := value)
    case PusdCash => b.(cash := value)
  }

  function PositionIndex(s: Scope, id: U256): Option<AssetIndex> {
    if id == s.idA then Some(PositionA) else if id == s.idB then Some(PositionB) else None
  }

  /** A refused replay keeps the balances that it had reached. */
  datatype Outcome = Applied(balances: Balances) | Refused(balances: Balances, reason: Reason)

  /** One transfer: to the owner adds, from the owner subtracts, to itself does nothing. */
  function ApplyTransfer(b: Balances, s: Scope, i: AssetIndex, from: Address, to: Address, amount: U256): Outcome {
    if from == s.owner && to == s.owner then
      Applied(b)
    else if from == s.owner then
      if amount <= Get(b, i) then Applied(Set(b, i, Get(b, i) - amount)) else Refused(b, BalanceUnderflow)
    else if to == s.owner then
      if Fits(Get(b, i) + amount) then Applied(Set(b, i, Get(b, i) + amount)) else Refused(b, BalanceOverflow)
    else
      Applied(b)
  }

  function ApplyBatch(b: Balances, s: Scope, from: Address, to: Address, ids: seq<U256>, amounts: seq<U256>): Outcome
    requires |ids| == |amounts|
    decreases |ids|
  {
    if ids == [] then
      Applied(b)
    else
      var first := match PositionIndex(s, ids[0])
        case Some(i) => ApplyTransfer(b, s, i, from, to, amounts[0])
        case None => Applied(b);
      if first.Refused? then first else ApplyBatch(first.balances, s, from, to, ids[1..], amounts[1..])
  }

  /** The batch as the program applies it, one id after the other. */
  method ReplayBatch(b: Balances, s: Scope, from: Address, to: Address, ids: seq<U256>, amounts: seq<U256>)
    returns (r: Outcome)
    requires |ids| == |amounts|
    ensures r == ApplyBatch(b, s, from, to, ids, amounts)
  {
    var current := b;
    for k := 0 to |ids|
      invariant ApplyBatch(b, s, from, to, ids, amounts)
        == ApplyBatch(current, s, from, to, ids[k..], amounts[k..])
    {
      hide WordSpan;
      assert ids[k..][1..] == ids[k + 1..] && amounts[k..][1..] == amounts[k + 1..];
      match PositionIndex(s, ids[k])
      case None =>
      case Some(i) =>
        var next := ApplyTransfer(current, s, i, from, to, amounts[k]);
        if next.Refused? { return next; }
        current := next.balances;
    }
    r := Applied(current);
  }

  /** What one log does to the owner's balances. */
  function ApplyLog(b: Balances, s: Scope, log: Log): Outcome {
    match log
    case Moved(Cash(token, from, to, amount)) =>
      if token == s.token then ApplyTransfer(b, s, PusdCash, from, to, amount) else Applied(b)
    case Moved(Single(book, _, from, to, id, amount)) =>
      if book == s.book && PositionIndex(s, id).Some? then
        ApplyTransfer(b, s, PositionIndex(s, id).value, from, to, amount)
      else
        Applied(b)
    case Moved(Batch(book, _, from, to, ids, amounts)) =>
      if book != s.book then Applied(b)
      else if |ids| != |amounts| then Refused(b, LengthMismatch)
      else ApplyBatch(b, s, from, to, ids, amounts)
    case Moved(Undecodable(emitter)) =>
      if emitter == FromToken(s.token) || emitter == FromBook(s.book) then Refused(b, UnsupportedMovement)
      else Applied(b)
    case _ => Applied(b)
  }

  ghost function Replay(b: Balances, s: Scope, logs: seq<Log>): Outcome {
    if logs == [] then
      Applied(b)
    else
      var before := Replay(b, s, logs[..|logs| - 1]);
      if before.Refused? then before else ApplyLog(before.balances, s, logs[|logs| - 1])
  }

  // ----- the replay adds up

  lemma TransferNet(b: Balances, s: Scope, i: AssetIndex, from: Address, to: Address, amount: U256, j: AssetIndex)
    requires ApplyTransfer(b, s, i, from, to, amount).Applied?
    ensures Get(ApplyTransfer(b, s, i, from, to, amount).balances, j) == Get(b, j)
      + if i != j then 0
        else (if to == s.owner then amount else 0) - (if from == s.owner then amount else 0)
  {
    hide WordSpan;
  }

  ghost function BatchStep(s: Scope, from: Address, to: Address, ids: seq<U256>, amounts: seq<U256>,
                           j: AssetIndex): int {
    if j == PusdCash then
      0
    else
      (if to == s.owner then BatchAmount(ids, amounts, AssetOf(s, j).id) else 0)
      - (if from == s.owner then BatchAmount(ids, amounts, AssetOf(s, j).id) else 0)
  }

  lemma {:induction false} BatchNet(b: Balances, s: Scope, from: Address, to: Address,
                                    ids: seq<U256>, amounts: seq<U256>, j: AssetIndex)
    requires |ids| == |amounts| && s.idA != s.idB
    requires ApplyBatch(b, s, from, to, ids, amounts).Applied?
    ensures Get(ApplyBatch(b, s, from, to, ids, amounts).balances, j) == Get(b, j)
      + BatchStep(s, from, to, ids, amounts, j)
    decreases |ids|
  {
    hide WordSpan;
    if ids != [] {
      var first := match PositionIndex(s, ids[0])
        case Some(i) => ApplyTransfer(b, s, i, from, to, amounts[0])
        case None => Applied(b);
      if PositionIndex(s, ids[0]).Some? {
        TransferNet(b, s, PositionIndex(s, ids[0]).value, from, to, amounts[0], j);
      }
      hide ApplyTransfer;
      BatchNet(first.balances, s, from, to, ids[1..], amounts[1..], j);
    }
  }

  lemma LogNet(b: Balances, s: Scope, log: Log, j: AssetIndex)
    requires s.idA != s.idB && ApplyLog(b, s, log).Applied?
    ensures Get(ApplyLog(b, s, log).balances, j) == Get(b, j) + Step(log, s.owner, AssetOf(s, j))
  {
    hide WordSpan, ApplyTransfer, ApplyBatch, BatchAmount;
    match log
    case Moved(Cash(token, from, to, amount)) =>
      if token == s.token { TransferNet(b, s, PusdCash, from, to, amount, j); }
    case Moved(Single(book, _, from, to, id, amount)) =>
      if book == s.book && PositionIndex(s, id).Some? {
        TransferNet(b, s, PositionIndex(s, id).value, from, to, amount, j);
      }
    case Moved(Batch(book, _, from, to, ids, amounts)) =>
      if book == s.book { BatchNet(b, s, from, to, ids, amounts, j); }
    case _ =>
  }

  /** A replay that is not refused moves each balance by exactly the net of the logs. */
  lemma {:induction false} ReplayNet(b: Balances, s: Scope, logs: seq<Log>, j: AssetIndex)
    requires s.idA != s.idB && Replay(b, s, logs).Applied?
    ensures Get(Replay(b, s, logs).balances, j) == Get(b, j) + Net(logs, s.owner, AssetOf(s, j))
  {
    hide WordSpan, ApplyLog, Net, Get, AssetOf, Step;
    var asset := AssetOf(s, j);
    NetLaws(s.owner, asset);
    if logs != [] {
      var front, last := logs[..|logs| - 1], logs[|logs| - 1];
      assert logs == front + [last];
      ReplayNet(b, s, front, j);
      LogNet(Replay(b, s, front).balances, s, last, j);
    }
  }

  lemma {:induction false} ReplayConcat(b: Balances, s: Scope, x: seq<Log>, y: seq<Log>)
    ensures Replay(b, s, x + y)
      == if Replay(b, s, x).Refused? then Replay(b, s, x) else Replay(Replay(b, s, x).balances, s, y)
  {
    hide ApplyLog;
    if y == [] {
      assert x + y == x;
    } else {
      assert (x + y)[..|x + y| - 1] == x + y[..|y| - 1];
      ReplayConcat(b, s, x, y[..|y| - 1]);
    }
  }

  // ----- the loops over blocks, transactions and movements

  method ReplayLogs(b: Balances, s: Scope, logs: seq<Log>) returns (r: Outcome)
    ensures r == Replay(b, s, logs)
  {
    var current := b;
    for k := 0 to |logs|
      invariant Replay(b, s, logs[..k]) == Applied(current)
    {
      assert logs == logs[..k] + [logs[k]] + logs[k + 1..];
      ReplayConcat(b, s, logs[..k] + [logs[k]], logs[k + 1..]);
      assert (logs[..k] + [logs[k]])[..k] == logs[..k] && logs[..k + 1] == logs[..k] + [logs[k]];
      hide Replay;
      var next := ReplayLog(current, s, logs[k]);
      if next.Refused? { return next; }
      current := next.balances;
    }
    assert logs[..|logs|] == logs;
    r := Applied(current);
  }

  method ReplayLog(b: Balances, s: Scope, log: Log) returns (r: Outcome)
    ensures r == ApplyLog(b, s, log)
  {
    if log.Moved? && log.movement.Batch? && log.movement.book == s.book
       && |log.movement.ids| == |log.movement.amounts| {
      r := ReplayBatch(b, s, log.movement.from, log.movement.to, log.movement.ids, log.movement.amounts);
    } else {
      r := ApplyLog(b, s, log);
    }
  }

  method ReplayBlock(b: Balances, s: Scope, block: Block) returns (r: Outcome)
    ensures r == Replay(b, s, BlockLogs(block))
  {
    hide Replay;
    var current, txs := b, block.transactions;
    NothingReplayed(b, s);
    for k := 0 to |txs|
      invariant Replay(b, s, TransactionsLogs(txs, k)) == Applied(current)
    {
      ReplayConcat(b, s, TransactionsLogs(txs, k), txs[k].logs);
      var next := ReplayLogs(current, s, txs[k].logs);
      if next.Refused? {
        RefusedStays(b, s, txs, k + 1);
        return next;
      }
      current := next.balances;
    }
    r := Applied(current);
  }

  lemma NothingReplayed(b: Balances, s: Scope)
    ensures Replay(b, s, []) == Applied(b)
  {
  }

  lemma {:induction false} RefusedStays(b: Balances, s: Scope, txs: seq<Transaction>, k: nat)
    requires k <= |txs| && Replay(b, s, TransactionsLogs(txs, k)).Refused?
    ensures Replay(b, s, TransactionsLogs(txs, |txs|)) == Replay(b, s, TransactionsLogs(txs, k))
    decreases |txs| - k
  {
    hide Replay;
    if k < |txs| {
      ReplayConcat(b, s, TransactionsLogs(txs, k), txs[k].logs);
      RefusedStays(b, s, txs, k + 1);
    }
  }

  /** The balances replayed through the first n blocks. */
  ghost function Through(opening: Balances, s: Scope, blocks: seq<Block>, n: nat): Outcome
    requires n <= |blocks|
  {
    Replay(opening, s, BlocksLogs(blocks, n))
  }

  lemma ThroughStep(opening: Balances, s: Scope, blocks: seq<Block>, n: nat)
    requires n < |blocks|
    ensures Through(opening, s, blocks, n + 1)
      == if Through(opening, s, blocks, n).Refused? then Through(opening, s, blocks, n)
         else Replay(Through(opening, s, blocks, n).balances, s, BlockLogs(blocks[n]))
  {
    hide Replay;
    ReplayConcat(opening, s, BlocksLogs(blocks, n), BlockLogs(blocks[n]));
  }

  lemma {:induction false} ThroughStaysRefused(opening: Balances, s: Scope, blocks: seq<Block>, n: nat)
    requires n <= |blocks| && Through(opening, s, blocks, n).Refused?
    ensures Through(opening, s, blocks, |blocks|).Refused?
    decreases |blocks| - n
  {
    hide Through;
    if n < |blocks| {
      ThroughStep(opening, s, blocks, n);
      ThroughStaysRefused(opening, s, blocks, n + 1);
    }
  }

  ghost predicate BoundaryMatches(opening: Balances, s: Scope, blocks: seq<Block>, k: nat)
    requires k < |blocks|
  {
    Through(opening, s, blocks, k + 1) == Applied(blocks[k].authenticated)
  }

  /** A mismatch names the first boundary that differs, its first differing asset, and both balances. */
  ghost predicate IsFirstMismatch(status: Status, opening: Balances, s: Scope, blocks: seq<Block>, k: nat)
    requires k < |blocks|
  {
    && (forall j :: 0 <= j < k ==> BoundaryMatches(opening, s, blocks, j))
    && Through(opening, s, blocks, k + 1).Applied?
    && status == FirstDifference(blocks[k].number, blocks[k].authenticated,
                                 Through(opening, s, blocks, k + 1).balances)
    && status.Mismatch?
  }

  /** The comparison at one boundary, in the order A, B, cash. */
  function FirstDifference(number: U64, authenticated: Balances, reconstructed: Balances): (r: Status)
    ensures r.Matched? <==> authenticated == reconstructed
    ensures r.Matched? || r.Mismatch?
  {
    if reconstructed.a != authenticated.a then Mismatch(number, PositionA, authenticated.a, reconstructed.a)
    else if reconstructed.b != authenticated.b then Mismatch(number, PositionB, authenticated.b, reconstructed.b)
    else if reconstructed.cash != authenticated.cash then
      Mismatch(number, PusdCash, authenticated.cash, reconstructed.cash)
    else Matched
  }

  /** A refusal names the first block whose logs cannot be replayed, and that block's reason. */
  ghost predicate IsFirstRefusal(status: Status, opening: Balances, s: Scope, blocks: seq<Block>, k: nat)
    requires k < |blocks|
  {
    && Through(opening, s, blocks, k).Applied?
    && var after := Replay(Through(opening, s, blocks, k).balances, s, BlockLogs(blocks[k]));
       after.Refused? && status == Unavailable(blocks[k].number, after.reason)
  }

  /** The verdict over the first k blocks, all of them replayed. */
  ghost predicate VerdictSoFar(status: Status, current: Balances, opening: Balances, s: Scope, blocks: seq<Block>,
                               k: nat)
    requires k <= |blocks|
  {
    && Through(opening, s, blocks, k) == Applied(current) && !status.Unavailable?
    && (status.Matched? <==> forall j :: 0 <= j < k ==> BoundaryMatches(opening, s, blocks, j))
    && (status.Mismatch? ==> exists j :: 0 <= j < k && IsFirstMismatch(status, opening, s, blocks, j))
  }

  method ReplayInventory(blocks: seq<Block>, opening: Balances, s: Scope) returns (status: Status)
    ensures status.Unavailable? <==> Through(opening, s, blocks, |blocks|).Refused?
    ensures status.Unavailable? ==>
      exists k :: 0 <= k < |blocks| && IsFirstRefusal(status, opening, s, blocks, k)
    ensures status.Matched? <==>
      Through(opening, s, blocks, |blocks|).Applied?
      && forall k :: 0 <= k < |blocks| ==> BoundaryMatches(opening, s, blocks, k)
    ensures status.Mismatch? ==>
      exists k :: 0 <= k < |blocks| && IsFirstMismatch(status, opening, s, blocks, k)
  {
    hide Replay, Through, BoundaryMatches, IsFirstMismatch, IsFirstRefusal, FirstDifference, VerdictSoFar;
    var current := opening;
    status := Matched;
    NoVerdictYet(opening, s, blocks);
    for k := 0 to |blocks|
      invariant VerdictSoFar(status, current, opening, s, blocks, k)
    {
      var next := ReplayBlock(current, s, blocks[k]);
      if next.Refused? {
        RefusedHere(status, Unavailable(blocks[k].number, next.reason), next, current, opening, s, blocks, k);
        return Unavailable(blocks[k].number, next.reason);
      }
      ghost var before := status;
      if status.Matched? {
        status := FirstDifference(blocks[k].number, blocks[k].authenticated, next.balances);
      }
      VerdictMore(before, status, current, next.balances, opening, s, blocks, k);
      current := next.balances;
    }
    VerdictIs(status, current, opening, s, blocks);
  }

  lemma NoVerdictYet(opening: Balances, s: Scope, blocks: seq<Block>)
    ensures VerdictSoFar(Matched, opening, opening, s, blocks, 0)
  {
    NothingReplayed(opening, s);
  }

  lemma RefusedHere(before: Status, status: Status, next: Outcome, current: Balances, opening: Balances, s: Scope,
                    blocks: seq<Block>, k: nat)
    requires k < |blocks| && VerdictSoFar(before, current, opening, s, blocks, k)
    requires next == Replay(current, s, BlockLogs(blocks[k])) && next.Refused?
    requires status == Unavailable(blocks[k].number, next.reason)
    ensures IsFirstRefusal(status, opening, s, blocks, k)
    ensures Through(opening, s, blocks, |blocks|).Refused?
  {
    hide Replay, Through;
    ThroughStep(opening, s, blocks, k);
    ThroughStaysRefused(opening, s, blocks, k + 1);
  }

  lemma VerdictMore(before: Status, status: Status, current: Balances, next: Balances, opening: Balances, s: Scope,
                    blocks: seq<Block>, k: nat)
    requires k < |blocks| && VerdictSoFar(before, current, opening, s, blocks, k)
    requires Replay(current, s, BlockLogs(blocks[k])) == Applied(next)
    requires status == if before.Matched? then FirstDifference(blocks[k].number, blocks[k].authenticated, next)
                       else before
    ensures VerdictSoFar(status, next, opening, s, blocks, k + 1)
  {
    hide Replay, Through, BoundaryMatches, IsFirstMismatch, FirstDifference;
    ThroughStep(opening, s, blocks, k);
    BoundaryCompared(opening, s, blocks, k, next);
  }

  lemma VerdictIs(status: Status, current: Balances, opening: Balances, s: Scope, blocks: seq<Block>)
    requires VerdictSoFar(status, current, opening, s, blocks, |blocks|)
    ensures Through(opening, s, blocks, |blocks|).Applied? && !status.Unavailable?
    ensures status.Matched? <==> forall k :: 0 <= k < |blocks| ==> BoundaryMatches(opening, s, blocks, k)
    ensures status.Mismatch? ==> exists k :: 0 <= k < |blocks| && IsFirstMismatch(status, opening, s, blocks, k)
  {
    hide Through, BoundaryMatches, IsFirstMismatch;
  }

  lemma BoundaryCompared(opening: Balances, s: Scope, blocks: seq<Block>, k: nat, current: Balances)
    requires k < |blocks| && Through(opening, s, blocks, k + 1) == Applied(current)
    ensures var status := FirstDifference(blocks[k].number, blocks[k].authenticated, current);
      && (status.Matched? <==> BoundaryMatches(opening, s, blocks, k))
      && ((forall j :: 0 <= j < k ==> BoundaryMatches(opening, s, blocks, j)) && status.Mismatch? ==>
            IsFirstMismatch(status, opening, s, blocks, k))
  {
    hide Through;
  }

  /** A matched inventory explains every boundary: the opening balance plus the net of all logs
      so far is the authenticated balance, for both positions and for cash. */
  lemma MatchedExplainsBoundary(blocks: seq<Block>, opening: Balances, s: Scope, k: nat, i: AssetIndex)
    requires k < |blocks| && s.idA != s.idB && BoundaryMatches(opening, s, blocks, k)
    ensures Get(blocks[k].authenticated, i)
      == Get(opening, i) + Net(BlocksLogs(blocks, k + 1), s.owner, AssetOf(s, i))
  {
    hide Replay, Net, BlocksLogs;
    ReplayNet(opening, s, BlocksLogs(blocks, k + 1), i);
  }
}
