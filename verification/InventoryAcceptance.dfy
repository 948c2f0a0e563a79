/** Which receipts can be replayed: every balance stays a word after every log. */
module InventoryAcceptance {
  import opened Words
  import opened Ledger
  import opened Receipts
  import opened Inventory

  /** A log of the tracked contracts that does not decode, or a batch of unequal lists. */
  ghost predicate IsReadable(s: Scope, log: Log) {
    match log
    case Moved(Undecodable(FromToken(token))) => token != s.token
    case Moved(Undecodable(FromBook(book))) => book != s.book
    case Moved(Batch(book, _, _, _, ids, amounts)) => book != s.book || |ids| == |amounts|
    case _ => true
  }

  /** Every balance, so changed by a log, is still a word. */
  ghost predicate CanFollow(b: Balances, s: Scope, log: Log) {
    && 0 <= b.a + Step(log, s.owner, Position(s.book, s.idA)) < WordSpan()
    && 0 <= b.b + Step(log, s.owner, Position(s.book, s.idB)) < WordSpan()
    && 0 <= b.cash + Step(log, s.owner, Fungible(s.token)) < WordSpan()
  }

  /** The running balances: the opening ones and the net of the first logs. */
  ghost function Running(b: Balances, s: Scope, logs: seq<Log>, i: AssetIndex): int {
    Get(b, i) + Net(logs, s.owner, AssetOf(s, i))
  }

  ghost predicate StayWords(b: Balances, s: Scope, logs: seq<Log>) {
    && 0 <= Running(b, s, logs, PositionA) < WordSpan()
    && 0 <= Running(b, s, logs, PositionB) < WordSpan()
    && 0 <= Running(b, s, logs, PusdCash) < WordSpan()
  }

  ghost predicate CanReplay(b: Balances, s: Scope, logs: seq<Log>) {
    forall k :: 0 <= k < |logs| ==> CanReplayAt(b, s, logs, k)
  }

  ghost predicate CanReplayAt(b: Balances, s: Scope, logs: seq<Log>, k: nat)
    requires k < |logs|
  {
    IsReadable(s, logs[k]) && StayWords(b, s, logs[..k + 1])
  }

  // ----- one transfer, one batch, one log

  /** The rows of a batch all go one way, so only what they carry together counts. */
  ghost predicate BatchFits(b: Balances, s: Scope, from: Address, to: Address, ids: seq<U256>, amounts: seq<U256>) {
    var x, y := BatchAmount(ids, amounts, s.idA), BatchAmount(ids, amounts, s.idB);
    || (from == s.owner && to == s.owner)
    || ((from == s.owner ==> x <= b.a && y <= b.b)
        && (to == s.owner ==> b.a + x < WordSpan() && b.b + y < WordSpan()))
  }

  lemma {:induction false} BatchIsAccepted(b: Balances, s: Scope, from: Address, to: Address, ids: seq<U256>,
                                           amounts: seq<U256>)
    requires |ids| == |amounts| && s.idA != s.idB
    ensures ApplyBatch(b, s, from, to, ids, amounts).Applied? <==> BatchFits(b, s, from, to, ids, amounts)
    ensures ApplyBatch(b, s, from, to, ids, amounts).Refused? ==>
      ApplyBatch(b, s, from, to, ids, amounts).reason == if from == s.owner then BalanceUnderflow else BalanceOverflow
    decreases |ids|
  {
    hide WordSpan;
    if ids != [] {
      var first := match PositionIndex(s, ids[0])
        case Some(i) => ApplyTransfer(b, s, i, from, to, amounts[0])
        case None => Applied(b);
      BatchIsAccepted(first.balances, s, from, to, ids[1..], amounts[1..]);
    }
  }

  /** Why a log that cannot be followed is refused. */
  ghost predicate IsReason(reason: Reason, b: Balances, s: Scope, log: Log) {
    if !IsReadable(s, log) then
      reason == if log.movement.Batch? then LengthMismatch else UnsupportedMovement
    else if b.a + Step(log, s.owner, Position(s.book, s.idA)) < 0
            || b.b + Step(log, s.owner, Position(s.book, s.idB)) < 0
            || b.cash + Step(log, s.owner, Fungible(s.token)) < 0 then
      reason == BalanceUnderflow
    else
      reason == BalanceOverflow
  }

  lemma LogIsAccepted(b: Balances, s: Scope, log: Log)
    requires s.idA != s.idB
    ensures ApplyLog(b, s, log).Applied? <==> IsReadable(s, log) && CanFollow(b, s, log)
    ensures ApplyLog(b, s, log).Refused? ==> IsReason(ApplyLog(b, s, log).reason, b, s, log)
  {
    hide WordSpan, ApplyBatch, BatchAmount;
    if log.Moved? && log.movement.Batch? && log.movement.book == s.book && IsReadable(s, log) {
      var m := log.movement;
      BatchIsAccepted(b, s, m.from, m.to, m.ids, m.amounts);
    }
  }

  /** A replay goes through exactly when every log can be read and every balance stays a word. */
  lemma {:induction false} ReplayIsAccepted(b: Balances, s: Scope, logs: seq<Log>)
    requires s.idA != s.idB
    ensures Replay(b, s, logs).Applied? <==> CanReplay(b, s, logs)
  {
    hide WordSpan, ApplyLog, IsReadable, StayWords, CanReplay;
    NothingReplays(b, s);
    if logs != [] {
      var front := logs[..|logs| - 1];
      ReplayIsAccepted(b, s, front);
      OneMoreReplays(b, s, logs);
      if Replay(b, s, front).Applied? { NextIsAccepted(b, s, logs); }
    }
  }

  lemma NothingReplays(b: Balances, s: Scope)
    ensures CanReplay(b, s, [])
  {
  }

  lemma OneMoreReplays(b: Balances, s: Scope, logs: seq<Log>)
    requires logs != []
    ensures CanReplay(b, s, logs) <==>
      CanReplay(b, s, logs[..|logs| - 1]) && IsReadable(s, logs[|logs| - 1]) && StayWords(b, s, logs)
  {
    hide WordSpan, IsReadable, StayWords;
    var n := |logs| - 1;
    var front := logs[..n];
    assert logs[..n + 1] == logs;
    forall k | 0 <= k < n
      ensures CanReplayAt(b, s, front, k) <==> CanReplayAt(b, s, logs, k)
    {
      assert front[..k + 1] == logs[..k + 1];
    }
    assert CanReplayAt(b, s, logs, n) <==> IsReadable(s, logs[n]) && StayWords(b, s, logs);
    hide CanReplayAt;
  }

  lemma NextIsAccepted(b: Balances, s: Scope, logs: seq<Log>)
    requires s.idA != s.idB && logs != [] && Replay(b, s, logs[..|logs| - 1]).Applied?
    ensures var before, last := Replay(b, s, logs[..|logs| - 1]).balances, logs[|logs| - 1];
      && (ApplyLog(before, s, last).Applied? <==> IsReadable(s, last) && StayWords(b, s, logs))
      && (CanFollow(before, s, last) <==> StayWords(b, s, logs))
  {
    hide WordSpan, Replay, ApplyLog, Net, Step, IsReadable;
    var front, last := logs[..|logs| - 1], logs[|logs| - 1];
    var before := Replay(b, s, front).balances;
    assert logs == front + [last];
    ReplayNet(b, s, front, PositionA);
    ReplayNet(b, s, front, PositionB);
    ReplayNet(b, s, front, PusdCash);
    NetLaws(s.owner, AssetOf(s, PositionA));
    NetLaws(s.owner, AssetOf(s, PositionB));
    NetLaws(s.owner, AssetOf(s, PusdCash));
    LogIsAccepted(before, s, last);
  }

  /** A refusal names the reason of the first log that cannot be followed. */
  lemma {:induction false} RefusalHasReason(b: Balances, s: Scope, logs: seq<Log>) returns (k: nat)
    requires s.idA != s.idB && Replay(b, s, logs).Refused?
    ensures k < |logs| && Replay(b, s, logs[..k]).Applied?
    ensures IsReason(Replay(b, s, logs).reason, Replay(b, s, logs[..k]).balances, s, logs[k])
    ensures CanReplay(b, s, logs[..k]) && !(IsReadable(s, logs[k]) && StayWords(b, s, logs[..k + 1]))
  {
    hide WordSpan, ApplyLog, IsReadable, StayWords, IsReason, CanReplay;
    var n := |logs| - 1;
    if Replay(b, s, logs[..n]).Refused? {
      k := RefusalHasReason(b, s, logs[..n]);
      assert logs[..n][..k] == logs[..k] && logs[..n][..k + 1] == logs[..k + 1];
    } else {
      k := n;
      LogIsAccepted(Replay(b, s, logs[..n]).balances, s, logs[n]);
      ReplayIsAccepted(b, s, logs[..n]);
      NextIsAccepted(b, s, logs);
      assert logs[..n + 1] == logs;
    }
  }

  // ----- the inventory

  /** An inventory has a verdict exactly when all its receipts together can be replayed. */
  lemma InventoryIsAccepted(opening: Balances, s: Scope, blocks: seq<Block>)
    requires s.idA != s.idB
    ensures Through(opening, s, blocks, |blocks|).Applied? <==> CanReplay(opening, s, BlocksLogs(blocks, |blocks|))
  {
    hide Replay, CanReplay;
    ReplayIsAccepted(opening, s, BlocksLogs(blocks, |blocks|));
  }

  /** A boundary matches exactly when it shows the running balances. */
  lemma BoundaryIsAccepted(opening: Balances, s: Scope, blocks: seq<Block>, k: nat)
    requires s.idA != s.idB && k < |blocks|
    ensures BoundaryMatches(opening, s, blocks, k) <==>
      && CanReplay(opening, s, BlocksLogs(blocks, k + 1))
      && blocks[k].authenticated.a == Running(opening, s, BlocksLogs(blocks, k + 1), PositionA)
      && blocks[k].authenticated.b == Running(opening, s, BlocksLogs(blocks, k + 1), PositionB)
      && blocks[k].authenticated.cash == Running(opening, s, BlocksLogs(blocks, k + 1), PusdCash)
  {
    hide Replay, CanReplay, Net, BlocksLogs;
    var logs := BlocksLogs(blocks, k + 1);
    ReplayIsAccepted(opening, s, logs);
    if Replay(opening, s, logs).Applied? {
      ReplayNet(opening, s, logs, PositionA);
      ReplayNet(opening, s, logs, PositionB);
      ReplayNet(opening, s, logs, PusdCash);
    }
  }

  /** A mismatch names the first balance that differs, as it is in evidence and as it was replayed. */
  lemma MismatchIsReal(number: U64, authenticated: Balances, reconstructed: Balances)
    requires authenticated != reconstructed
    ensures var r := FirstDifference(number, authenticated, reconstructed);
      && r.Mismatch? && r.blockNumber == number && r.authenticated != r.reconstructed
      && r.authenticated == Get(authenticated, r.asset) && r.reconstructed == Get(reconstructed, r.asset)
      && (!r.asset.PositionA? ==> authenticated.a == reconstructed.a)
      && (r.asset.PusdCash? ==> authenticated.b == reconstructed.b)
  {
  }
}
