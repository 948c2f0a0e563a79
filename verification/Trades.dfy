/** Classifies the transactions of an interval: a transaction is quiet, or it is one settled
    match that explains all the owner's movements, or the whole interval is refused. */
module Trades {
  import opened Words
  import opened Ledger
  import opened MatchCall
  import opened Receipts
  import opened Settlement
  import opened SettlementLaws
  import opened CallSettlement
  import opened MatchTheorems
  import MatchCodec
  import Inventory

  datatype Reason =
    | InventoryUnreconciled | UnsupportedOwnerActivity | UnsupportedDirectCall | InvalidCalldata
    | SourceSettlementMismatch | ArithmeticUnavailable | UnsupportedOwnerRole

  /** The parties of the Exchange, and the two token contracts. */
  datatype Desk = Desk(venue: Venue, positionManager: Address, pusd: Address) {
    predicate Unsupported(owner: Address) {
      owner == venue.feeReceiver || owner == venue.module_ || owner == venue.exchange
      || owner == positionManager || owner == pusd
    }
  }

  datatype TradeFact = TradeFact(
    blockNumber: U64, blockHash: Hash, transactionHash: Hash, transactionIndex: U64, branch: Branch,
    flows: Flows, ownerFee: U256, refund: U256, fills: seq<Fill>, fillLogIndexes: seq<U64>)

  datatype Classification = Quiet | Fact(fact: TradeFact) | Unavailable(reason: Reason)

  // ----- activity of the owner

  predicate MovementMentions(m: Movement, owner: Address, v: Venue) {
    match m
    case Cash(token, from, to, _) => token == Pusd && (from == owner || to == owner)
    case Single(book, _, from, to, id, _) =>
      book == PositionManager && (from == owner || to == owner) && v.Lists(id)
    case Batch(book, _, from, to, ids, _) =>
      book == PositionManager && (from == owner || to == owner) && exists id :: id in ids && v.Lists(id)
    case Undecodable(emitter) => emitter == FromToken(Pusd) || emitter == FromBook(PositionManager)
  }

  predicate HasOwnerActivity(logs: seq<Log>, owner: Address, v: Venue) {
    exists log :: log in logs && log.Moved? && MovementMentions(log.movement, owner, v)
  }

  predicate HasOwnerEvent(logs: seq<Log>, owner: Address) {
    exists log :: log in logs && log.Noted? && EventMentions(log.event, owner)
  }

  predicate EventMentions(e: Event, owner: Address) {
    match e
    case OrderFilled(_, maker, taker, _, _, _, _, _, _, _) => maker == owner || taker == owner
    case FeeCharged(receiver, _) => receiver == owner
    case OrdersMatched(_, takerMaker, _, _, _, _) => takerMaker == owner
    case _ => false
  }

  lemma UnmentionedLogIsStill(log: Log, owner: Address, v: Venue, asset: Asset)
    requires log.Moved? ==> !MovementMentions(log.movement, owner, v)
    requires asset in {PositionA(v), PositionB(v), CallSettlement.PusdCash()}
    ensures Step(log, owner, asset) == 0
  {
    hide BatchAmount, WordSpan;
    if log.Moved? && log.movement.Batch? && asset.Position? && asset.id !in log.movement.ids {
      UnlistedBatch(log.movement.ids, log.movement.amounts, asset.id);
    }
  }

  /** Without owner activity a receipt moves none of the owner's selected assets. */
  lemma {:induction false} InactiveIsStill(logs: seq<Log>, owner: Address, v: Venue, asset: Asset)
    requires !HasOwnerActivity(logs, owner, v)
    requires asset in {PositionA(v), PositionB(v), CallSettlement.PusdCash()}
    ensures Net(logs, owner, asset) == 0
  {
    hide Net, MovementMentions, Step;
    NetLaws(owner, asset);
    if logs != [] {
      var front, last := logs[..|logs| - 1], logs[|logs| - 1];
      assert logs == front + [last] && last in logs;
      assert forall log :: log in front ==> log in logs;
      InactiveIsStill(front, owner, v, asset);
      UnmentionedLogIsStill(last, owner, v, asset);
    }
  }

  // ----- binding fills to OrderFilled events

  /** What a reported fill and an OrderFilled event must share. */
  datatype FillKey = FillKey(
    hash: Hash, maker: Address, taker: Address, side: TradeSide, id: U256, making: U256, taking: U256, fee: U256)

  function LogKey(log: Log): Option<FillKey> {
    match log
    case Noted(OrderFilled(hash, maker, taker, side, id, making, taking, fee, _, _)) =>
      Some(FillKey(hash, maker, taker, side, id, making, taking, fee))
    case _ => None
  }

  function KeyOfFill(f: Fill, takerMaker: Address, v: Venue): Option<FillKey> {
    Some(FillKey(f.hash, f.order.maker, if f.role == TakerRole then v.exchange else takerMaker, f.order.side,
                 f.order.tokenId, f.making, f.taking, f.fee))
  }

  ghost function LogKeys(logs: seq<Log>): seq<Option<FillKey>> {
    seq(|logs|, i requires 0 <= i < |logs| => LogKey(logs[i]))
  }

  ghost function FillKeys(fills: seq<Fill>, takerMaker: Address, v: Venue): seq<Option<FillKey>> {
    seq(|fills|, i requires 0 <= i < |fills| => KeyOfFill(fills[i], takerMaker, v))
  }

  /** Every fitting event before a position is taken. */
  ghost predicate TakenBefore(p: nat, key: Option<FillKey>, logs: seq<Log>, positions: seq<nat>)
    requires p <= |logs|
  {
    forall q :: 0 <= q < p && LogKey(logs[q]) == key ==> q in positions
  }

  /** Each fill has its own event, the first one that fits and is still free. */
  ghost predicate Bound(fills: seq<Fill>, logs: seq<Log>, takerMaker: Address, v: Venue, positions: seq<nat>) {
    && |positions| <= |fills|
    && (forall j :: 0 <= j < |positions| ==> BoundAt(fills[j], logs, takerMaker, v, positions, j))
  }

  ghost predicate BoundAt(f: Fill, logs: seq<Log>, takerMaker: Address, v: Venue, positions: seq<nat>, j: nat)
    requires j < |positions|
  {
    && positions[j] < |logs| && positions[j] !in positions[..j]
    && LogKey(logs[positions[j]]) == KeyOfFill(f, takerMaker, v)
    && TakenBefore(positions[j], KeyOfFill(f, takerMaker, v), logs, positions[..j])
  }

  /** The events not yet taken: taken positions are blanked. */
  ghost predicate Free(free: seq<Option<FillKey>>, logs: seq<Log>, positions: seq<nat>) {
    && |free| == |logs|
    && forall p :: 0 <= p < |logs| ==> free[p] == if p in positions then None else LogKey(logs[p])
  }

  method FindFree(f: Fill, logs: seq<Log>, takerMaker: Address, v: Venue, positions: seq<nat>,
                  ghost free: seq<Option<FillKey>>) returns (p: nat)
    requires Free(free, logs, positions) && KeyOfFill(f, takerMaker, v) in free
    ensures p < |logs| && free[p] == KeyOfFill(f, takerMaker, v) && p !in positions
    ensures TakenBefore(p, KeyOfFill(f, takerMaker, v), logs, positions)
  {
    hide *;
    KeyIsSome(f, takerMaker, v);
    var key := KeyOfFill(f, takerMaker, v);
    ghost var last :| 0 <= last < |free| && free[last] == key;
    p := 0;
    FreeAt(free, logs, positions, last);
    NothingBefore(key, logs, positions);
    while p in positions || LogKey(logs[p]) != key
      invariant p <= last < |logs| && TakenBefore(p, key, logs, positions)
      decreases |logs| - p
    {
      FreeAt(free, logs, positions, p);
      TakenOneMore(p, key, logs, positions);
      p := p + 1;
    }
    FreeAt(free, logs, positions, p);
  }

  lemma NothingBefore(key: Option<FillKey>, logs: seq<Log>, positions: seq<nat>)
    ensures TakenBefore(0, key, logs, positions)
  {
  }

  lemma TakenOneMore(p: nat, key: Option<FillKey>, logs: seq<Log>, positions: seq<nat>)
    requires p < |logs| && TakenBefore(p, key, logs, positions) && (p in positions || LogKey(logs[p]) != key)
    ensures TakenBefore(p + 1, key, logs, positions)
  {
    hide LogKey;
  }

  lemma FreeAt(free: seq<Option<FillKey>>, logs: seq<Log>, positions: seq<nat>, p: nat)
    requires Free(free, logs, positions) && p < |free|
    ensures |free| == |logs| && free[p] == if p in positions then None else LogKey(logs[p])
  {
    hide LogKey;
  }

  lemma TakeOne(free: seq<Option<FillKey>>, rest: seq<Option<FillKey>>, p: nat)
    requires p < |free| && rest != [] && free[p] == rest[0] && rest[0].Some?
    requires multiset(rest) <= multiset(free)
    ensures multiset(rest[1..]) <= multiset(free[p := None])
  {
    assert rest == [rest[0]] + rest[1..];
  }

  /** Binds every fill. The program's refusal for a fill without an event can never be reached. */
  method BindFills(fills: seq<Fill>, logs: seq<Log>, takerMaker: Address, v: Venue) returns (positions: seq<nat>)
    requires multiset(FillKeys(fills, takerMaker, v)) <= multiset(LogKeys(logs))
    ensures |positions| == |fills| && Bound(fills, logs, takerMaker, v, positions)
  {
    hide LogKey, KeyOfFill, BoundAt;
    positions := [];
    ghost var free, keys := LogKeys(logs), FillKeys(fills, takerMaker, v);
    assert keys[0..] == keys;
    for j := 0 to |fills|
      invariant |positions| == j && Bound(fills, logs, takerMaker, v, positions)
      invariant Free(free, logs, positions)
      invariant multiset(keys[j..]) <= multiset(free)
    {
      assert keys[j..][0] == KeyOfFill(fills[j], takerMaker, v) && keys[j..][1..] == keys[j + 1..];
      assert keys[j..][0] in multiset(keys[j..]);
      var p := FindFree(fills[j], logs, takerMaker, v, positions, free);
      KeyIsSome(fills[j], takerMaker, v);
      TakeOne(free, keys[j..], p);
      BoundOneMore(fills, logs, takerMaker, v, positions, p);
      positions := positions + [p];
      free := free[p := None];
    }
  }

  lemma KeyIsSome(f: Fill, takerMaker: Address, v: Venue)
    ensures KeyOfFill(f, takerMaker, v).Some?
  {
  }

  lemma BoundInside(fills: seq<Fill>, logs: seq<Log>, takerMaker: Address, v: Venue, positions: seq<nat>)
    requires Bound(fills, logs, takerMaker, v, positions)
    ensures forall j :: 0 <= j < |positions| ==> positions[j] < |logs|
  {
    hide LogKey, KeyOfFill;
    forall j | 0 <= j < |positions|
      ensures positions[j] < |logs|
    {
      assert BoundAt(fills[j], logs, takerMaker, v, positions, j);
    }
  }

  lemma BoundOneMore(fills: seq<Fill>, logs: seq<Log>, takerMaker: Address, v: Venue, positions: seq<nat>, p: nat)
    requires Bound(fills, logs, takerMaker, v, positions) && |positions| < |fills|
    requires p < |logs| && p !in positions && LogKey(logs[p]) == KeyOfFill(fills[|positions|], takerMaker, v)
    requires TakenBefore(p, KeyOfFill(fills[|positions|], takerMaker, v), logs, positions)
    ensures Bound(fills, logs, takerMaker, v, positions + [p])
  {
    hide LogKey, KeyOfFill;
    var more := positions + [p];
    forall j | 0 <= j < |more|
      ensures BoundAt(fills[j], logs, takerMaker, v, more, j)
    {
      if j < |positions| {
        assert BoundAt(fills[j], logs, takerMaker, v, positions, j);
        assert more[..j] == positions[..j];
      } else {
        assert more[..j] == positions;
      }
    }
  }

  // ----- every fill of the owner has an event of its own

  lemma LogKeysConcat(a: seq<Log>, b: seq<Log>)
    ensures LogKeys(a + b) == LogKeys(a) + LogKeys(b)
  {
    hide LogKey;
  }

  lemma FillKeysConcat(a: seq<Fill>, b: seq<Fill>, takerMaker: Address, v: Venue)
    ensures FillKeys(a + b, takerMaker, v) == FillKeys(a, takerMaker, v) + FillKeys(b, takerMaker, v)
  {
    hide KeyOfFill;
  }

  ghost predicate LogsFills(phase: Phase) { phase == NormalPass || phase == MintIntake || phase == MergeIntake }

  lemma LegLogsItsFill(m: Match, phase: Phase, leg: Leg)
    requires LogsFills(phase) && (!AnyFees(m) ==> leg.fee == 0)
    ensures LegFillLog(m, leg) in LegLogs(m, phase, leg)
  {
    hide WordSpan, AnyFees, Word;
  }

  lemma LegEventCoversFill(m: Match, phase: Phase, leg: Leg, owner: Address)
    requires LogsFills(phase) && (!AnyFees(m) ==> leg.fee == 0)
    ensures multiset(FillKeys(OwnFill(leg, owner), m.taker.maker, m.venue)) <= multiset(LogKeys(LegLogs(m, phase, leg)))
  {
    hide WordSpan, AnyFees, LegLogs, LegFillLog;
    var logs := LegLogs(m, phase, leg);
    if leg.order.maker == owner {
      LegLogsItsFill(m, phase, leg);
      var i :| 0 <= i < |logs| && logs[i] == LegFillLog(m, leg);
      FillKeyIsLogKey(m, leg, owner);
      assert LogKeys(logs)[i] == LogKey(logs[i]);
      assert FillKeys(OwnFill(leg, owner), m.taker.maker, m.venue) == [LogKey(LegFillLog(m, leg))];
      assert LogKey(LegFillLog(m, leg)) in LogKeys(logs);
    }
  }

  lemma FillKeyIsLogKey(m: Match, leg: Leg, owner: Address)
    requires leg.order.maker == owner
    ensures |OwnFill(leg, owner)| == 1
    ensures KeyOfFill(OwnFill(leg, owner)[0], m.taker.maker, m.venue) == LogKey(LegFillLog(m, leg))
  {
  }

  lemma {:induction false} PassCoversFills(m: Match, phase: Phase, owner: Address, n: nat)
    requires n <= |m.legs| && LogsFills(phase)
    ensures multiset(FillKeys(LegFills(m, owner, n), m.taker.maker, m.venue)) <= multiset(LogKeys(Pass(m, phase, n)))
  {
    hide WordSpan, AnyFees, LegLogs, OwnFill, LogKeys, FillKeys;
    if n > 0 {
      var leg := m.legs[n - 1];
      PassCoversFills(m, phase, owner, n - 1);
      if !AnyFees(m) { NoFees(m, leg); }
      LegEventCoversFill(m, phase, leg, owner);
      LogKeysConcat(Pass(m, phase, n - 1), LegLogs(m, phase, leg));
      FillKeysConcat(LegFills(m, owner, n - 1), OwnFill(leg, owner), m.taker.maker, m.venue);
    } else {
      NoKeys(m.taker.maker, m.venue);
    }
  }

  lemma NoKeys(takerMaker: Address, v: Venue)
    ensures FillKeys([], takerMaker, v) == [] && LogKeys([]) == []
  {
  }

  lemma ReceiptCoversTaker(m: Match, owner: Address, making: nat, taking: nat)
    ensures multiset(FillKeys(TakerFills(m, owner, making, taking), m.taker.maker, m.venue))
      <= multiset(LogKeys(Receipt(m, making, taking)))
  {
    hide WordSpan, Word;
    var fills, receipt := TakerFills(m, owner, making, taking), Receipt(m, making, taking);
    if m.taker.maker == owner {
      assert FillKeys(fills, m.taker.maker, m.venue) == [KeyOfFill(fills[0], m.taker.maker, m.venue)];
      assert KeyOfFill(fills[0], m.taker.maker, m.venue) == LogKey(receipt[0]) == LogKeys(receipt)[0];
      assert LogKeys(receipt)[0] in LogKeys(receipt);
    }
  }

  /** The logs of an outcome are, in order, something, the first pass, something, the receipt. */
  ghost function Before(m: Match, branch: Branch): seq<Log> {
    if branch.MintMatch? then [MintDeposit(m)] else []
  }

  ghost function Between(m: Match, branch: Branch): seq<Log> {
    match branch
    case NormalMatch => NormalClosing(m)
    case MintMatch => MintLogs(m, All(m, BuyTaking)) + Pass(m, MintPayout, |m.legs|) + MintClosing(m)
    case MergeMatch => MergeLogs(m) + Pass(m, MergePayout, |m.legs|) + MergeClosing(m)
  }

  ghost function FirstPass(branch: Branch): Phase {
    match branch case NormalMatch => NormalPass case MintMatch => MintIntake case MergeMatch => MergeIntake
  }

  lemma OutcomeShape(m: Match, branch: Branch)
    requires Accepts(m, branch)
    ensures var built := Outcome(m, branch);
      built.logs == Before(m, branch) + Pass(m, FirstPass(branch), |m.legs|)
        + (Between(m, branch) + Receipt(m, built.making, built.taking))
  {
    hide WordSpan, Pass, NormalClosing, MintClosing, MergeClosing, MintLogs, MergeLogs, Receipt, MintDeposit;
    hide NormalLegOk, IntakeOk, PayoutFits, CheckedMulDiv, Sum, MintRefund, MergeTaking;
  }

  lemma EventsCoverFills(m: Match, branch: Branch, owner: Address)
    requires Accepts(m, branch)
    ensures multiset(FillKeys(OwnerFills(m, owner, Outcome(m, branch)), m.taker.maker, m.venue))
      <= multiset(LogKeys(Outcome(m, branch).logs))
  {
    hide WordSpan, Accepts, Outcome, Pass, Receipt, Before, Between, LogKeys, FillKeys, LegFills, TakerFills;
    var built, n := Outcome(m, branch), |m.legs|;
    var first, taker := Pass(m, FirstPass(branch), n), TakerFills(m, owner, built.making, built.taking);
    var receipt := Receipt(m, built.making, built.taking);
    OutcomeShape(m, branch);
    PassCoversFills(m, FirstPass(branch), owner, n);
    ReceiptCoversTaker(m, owner, built.making, built.taking);
    LogKeysConcat(Before(m, branch), first);
    LogKeysConcat(Before(m, branch) + first, Between(m, branch) + receipt);
    LogKeysConcat(Between(m, branch), receipt);
    FillKeysConcat(taker, LegFills(m, owner, n), m.taker.maker, m.venue);
  }

  // ----- one transaction

  predicate IsMatchOrders(tx: Transaction) {
    tx.input.Some? && MatchCodec.SELECTOR <= tx.input.value
  }

  ghost function CallOf(tx: Transaction): Option<MatchOrdersCall>
    requires tx.input.Some?
  {
    MatchCodec.DecodeCall(tx.input.value)
  }

  ghost predicate IsActive(tx: Transaction, owner: Address, v: Venue) {
    HasOwnerActivity(tx.logs, owner, v) || HasOwnerEvent(tx.logs, owner)
  }

  /** The fact that a settled match of the owner becomes. */
  ghost predicate IsFactOf(fact: TradeFact, block: Block, tx: Transaction, owner: Address, v: Venue,
                           call: MatchOrdersCall, hash: MatchOrder -> Hash)
    requires call.Aligned() && tx.Valid() && Settles(call, owner, v, hash)
  {
    var m, branch := MatchOf(call, v, hash), TheBranch(call);
    var built := Outcome(m, branch);
    && fact.blockNumber == block.number && fact.blockHash == block.hash
    && fact.transactionHash == tx.hash && fact.transactionIndex == tx.index
    && fact.branch == built.branch && FlowsAre(fact.flows, tx.logs, owner, v)
    && fact.fills == OwnerFills(m, owner, built) && fact.ownerFee == FillFees(fact.fills)
    && fact.refund == (if m.taker.maker == owner then built.refund else 0)
    && IsBinding(fact, tx, call.takerOrder.maker, v)
  }

  ghost predicate IsBinding(fact: TradeFact, tx: Transaction, takerMaker: Address, v: Venue)
    requires tx.Valid()
  {
    |fact.fillLogIndexes| == |fact.fills|
    && exists positions: seq<nat> :: |positions| == |fact.fills| && Bound(fact.fills, tx.logs, takerMaker, v, positions)
         && forall j :: 0 <= j < |positions| ==>
              positions[j] < |tx.logs| && fact.fillLogIndexes[j] == tx.logIndexes[positions[j]]
  }

  /** What the classification of a transaction must be. */
  ghost predicate Classifies(c: Classification, block: Block, tx: Transaction, owner: Address, desk: Desk,
                             hash: MatchOrder -> Hash)
    requires tx.Valid()
  {
    var v := desk.venue;
    var active := IsActive(tx, owner, v);
    if !tx.succeeded then
      c == (if active then Unavailable(SourceSettlementMismatch) else Quiet)
    else if tx.to != Some(v.exchange) then
      c == (if active then Unavailable(UnsupportedOwnerActivity) else Quiet)
    else if !IsMatchOrders(tx) then
      c == (if active then Unavailable(UnsupportedDirectCall) else Quiet)
    else if !tx.replayProtected || tx.value != 0 || tx.recoveredFrom.None? then
      c == Unavailable(UnsupportedDirectCall)
    else if CallOf(tx).None? then
      c == Unavailable(InvalidCalldata)
    else
      ClassifiesCall(c, block, tx, owner, desk, CallOf(tx).value, hash)
  }

  ghost predicate ClassifiesCall(c: Classification, block: Block, tx: Transaction, owner: Address, desk: Desk,
                                 call: MatchOrdersCall, hash: MatchOrder -> Hash)
    requires call.Aligned() && tx.Valid()
  {
    var v := desk.venue;
    if !Settles(call, owner, v, hash) then
      c == Unavailable(ArithmeticUnavailable)
    else
      var built := Outcome(MatchOf(call, v, hash), TheBranch(call));
      var participates := OwnerFills(MatchOf(call, v, hash), owner, built) != [];
      if participates && desk.Unsupported(owner) then c == Unavailable(UnsupportedOwnerRole)
      else if tx.logs != built.logs then c == Unavailable(SourceSettlementMismatch)
      else if participates then c.Fact? && IsFactOf(c.fact, block, tx, owner, v, call, hash)
      else if HasOwnerActivity(tx.logs, owner, v) then c == Unavailable(UnsupportedOwnerRole)
      else c == Quiet
  }

  method ClassifyCall(block: Block, tx: Transaction, owner: Address, desk: Desk, call: MatchOrdersCall,
                      hash: MatchOrder -> Hash, hasOwnerActivity: bool) returns (c: Classification)
    requires call.Aligned() && tx.Valid() && desk.venue.idA != desk.venue.idB
    requires hasOwnerActivity == HasOwnerActivity(tx.logs, owner, desk.venue)
    ensures ClassifiesCall(c, block, tx, owner, desk, call, hash)
  {
    hide Settles, Outcome, MatchOf, OwnerFills, FlowsAre, FillKeys, LogKeys, HasOwnerActivity, WordSpan, FillFees;
    var v := desk.venue;
    var settlement := BuildSettlement(call, owner, v, hash);
    if settlement.None? { return Unavailable(ArithmeticUnavailable); }
    var s := settlement.value;
    if s.participates && desk.Unsupported(owner) { return Unavailable(UnsupportedOwnerRole); }
    if tx.logs != s.logs { return Unavailable(SourceSettlementMismatch); }
    if !s.participates && hasOwnerActivity { return Unavailable(UnsupportedOwnerRole); }
    if !s.participates { return Quiet; }
    SettledIsAccepted(call, owner, v, hash);
    EventsCoverFills(MatchOf(call, v, hash), TheBranch(call), owner);
    var positions := BindFills(s.fills, tx.logs, call.takerOrder.maker, v);
    var indexes := IndexesOf(tx, s.fills, call.takerOrder.maker, v, positions);
    c := Fact(TradeFact(block.number, block.hash, tx.hash, tx.index, s.branch, s.flows, s.ownerFee, s.refund,
                        s.fills, indexes));
    assert IsBinding(c.fact, tx, call.takerOrder.maker, v);
  }

  lemma SettledIsAccepted(call: MatchOrdersCall, owner: Address, v: Venue, hash: MatchOrder -> Hash)
    requires call.Aligned() && Settles(call, owner, v, hash)
    ensures Accepts(MatchOf(call, v, hash), TheBranch(call)) && MatchOf(call, v, hash).venue == v
    ensures MatchOf(call, v, hash).taker == call.takerOrder
  {
    hide Accepts, CallUsable, ExchangeClears, CapsHold, Outcome, OwnerFills;
  }

  method IndexesOf(tx: Transaction, fills: seq<Fill>, takerMaker: Address, v: Venue, positions: seq<nat>)
    returns (indexes: seq<U64>)
    requires tx.Valid() && |positions| == |fills| && Bound(fills, tx.logs, takerMaker, v, positions)
    ensures |indexes| == |fills|
    ensures forall j :: 0 <= j < |positions| ==>
      positions[j] < |tx.logs| && indexes[j] == tx.logIndexes[positions[j]]
  {
    hide Bound;
    BoundInside(fills, tx.logs, takerMaker, v, positions);
    indexes := [];
    for j := 0 to |positions|
      invariant |indexes| == j
      invariant forall k :: 0 <= k < j ==> indexes[k] == tx.logIndexes[positions[k]]
    {
      indexes := indexes + [tx.logIndexes[positions[j]]];
    }
  }

  method ClassifyTransaction(block: Block, tx: Transaction, owner: Address, desk: Desk, hash: MatchOrder -> Hash)
    returns (c: Classification)
    requires tx.Valid() && desk.venue.idA != desk.venue.idB
    ensures Classifies(c, block, tx, owner, desk, hash)
  {
    hide HasOwnerActivity, HasOwnerEvent, ClassifiesCall, WordSpan;
    var v := desk.venue;
    var hasOwnerActivity, hasOwnerEvent := HasOwnerActivity(tx.logs, owner, v), HasOwnerEvent(tx.logs, owner);
    var active := hasOwnerActivity || hasOwnerEvent;
    if !tx.succeeded { return if active then Unavailable(SourceSettlementMismatch) else Quiet; }
    if tx.to != Some(v.exchange) { return if active then Unavailable(UnsupportedOwnerActivity) else Quiet; }
    if !IsMatchOrders(tx) { return if active then Unavailable(UnsupportedDirectCall) else Quiet; }
    if !tx.replayProtected || tx.value != 0 || tx.recoveredFrom.None? { return Unavailable(UnsupportedDirectCall); }
    var call := MatchCodec.DecodeCall(tx.input.value);
    if call.None? { return Unavailable(InvalidCalldata); }
    c := ClassifyCall(block, tx, owner, desk, call.value, hash, hasOwnerActivity);
  }

  // ----- what a classified transaction moves

  ghost function FlowOf(fact: TradeFact, v: Venue, i: Inventory.AssetIndex): int {
    match i
    case PositionA => fact.flows.inA - fact.flows.outA
    case PositionB => fact.flows.inB - fact.flows.outB
    case PusdCash => fact.flows.cashIn - fact.flows.cashOut
  }

  ghost function ScopeOf(owner: Address, v: Venue): Inventory.Scope {
    Inventory.Scope(owner, v.idA, v.idB, Pusd, PositionManager)
  }

  ghost function AssetAt(owner: Address, v: Venue, i: Inventory.AssetIndex): Asset {
    Inventory.AssetOf(ScopeOf(owner, v), i)
  }

  /** The fact's flows are worth exactly the fills that it reports. */
  ghost predicate FillsExplain(fact: TradeFact, owner: Address, v: Venue) {
    && fact.ownerFee == FillFees(fact.fills)
    && forall i :: FlowOf(fact, v, i) == FillsNet(fact.fills, owner, AssetAt(owner, v, i))
  }

  ghost function MovedBy(c: Classification, v: Venue, i: Inventory.AssetIndex): int {
    if c.Fact? then FlowOf(c.fact, v, i) else 0
  }

  /** A quiet transaction moves nothing of the owner's; a fact's flows are what its logs move. */
  lemma ClassifiedMoves(c: Classification, block: Block, tx: Transaction, owner: Address, desk: Desk,
                        hash: MatchOrder -> Hash, i: Inventory.AssetIndex)
    requires tx.Valid() && Classifies(c, block, tx, owner, desk, hash) && !c.Unavailable?
    ensures MovedBy(c, desk.venue, i) == Net(tx.logs, owner, AssetAt(owner, desk.venue, i))
  {
    hide HasOwnerEvent, HasOwnerActivity, Settles, Outcome, MatchOf, OwnerFills, IsBinding, FillFees, Total, WordSpan;
    if c.Quiet? {
      InactiveIsStill(tx.logs, owner, desk.venue, AssetAt(owner, desk.venue, i));
    }
  }

  lemma FactIsFills(c: Classification, block: Block, tx: Transaction, owner: Address, desk: Desk,
                    hash: MatchOrder -> Hash)
    requires tx.Valid() && Classifies(c, block, tx, owner, desk, hash) && c.Fact?
    requires desk.venue.idA != desk.venue.idB
    ensures FillsExplain(c.fact, owner, desk.venue) && c.fact.blockNumber == block.number
  {
    hide HasOwnerEvent, HasOwnerActivity, Settles, Outcome, MatchOf, OwnerFills, IsBinding, FillFees, Total, WordSpan;
    hide FillsNet, FlowsAre;
    var call, v := CallOf(tx).value, desk.venue;
    forall i
      ensures FlowOf(c.fact, v, i) == FillsNet(c.fact.fills, owner, AssetAt(owner, v, i))
    {
      FactFlowIsFills(c.fact, block, tx, owner, desk, call, hash, i);
    }
  }

  lemma AssetIsSelected(owner: Address, v: Venue, i: Inventory.AssetIndex)
    ensures AssetAt(owner, v, i) in {PositionA(v), PositionB(v), CallSettlement.PusdCash()}
  {
  }

  lemma FlowOfIsFlowNet(fact: TradeFact, owner: Address, v: Venue, i: Inventory.AssetIndex)
    requires v.idA != v.idB
    ensures FlowOf(fact, v, i) == FlowNet(fact.flows, v, AssetAt(owner, v, i))
  {
  }

  /** A fact says of its match what the settlement said. */
  ghost function SettlementOf(fact: TradeFact, logs: seq<Log>): SettledMatch {
    SettledMatch(fact.branch, logs, fact.flows, fact.ownerFee, fact.refund, fact.fills, true)
  }

  lemma FactDescribes(fact: TradeFact, block: Block, tx: Transaction, owner: Address, v: Venue,
                      call: MatchOrdersCall, hash: MatchOrder -> Hash)
    requires call.Aligned() && tx.Valid() && Settles(call, owner, v, hash)
    requires IsFactOf(fact, block, tx, owner, v, call, hash)
    requires tx.logs == Outcome(MatchOf(call, v, hash), TheBranch(call)).logs && fact.fills != []
    ensures Describes(SettlementOf(fact, tx.logs), MatchOf(call, v, hash), owner,
                      Outcome(MatchOf(call, v, hash), TheBranch(call)))
  {
    SettledIsAccepted(call, owner, v, hash);
    hide Settles, Outcome, MatchOf, OwnerFills, IsBinding, FillFees, FlowsAre, WordSpan;
  }

  lemma FactFlowIsFills(fact: TradeFact, block: Block, tx: Transaction, owner: Address, desk: Desk,
                        call: MatchOrdersCall, hash: MatchOrder -> Hash, i: Inventory.AssetIndex)
    requires call.Aligned() && tx.Valid() && Settles(call, owner, desk.venue, hash)
    requires IsFactOf(fact, block, tx, owner, desk.venue, call, hash)
    requires tx.logs == Outcome(MatchOf(call, desk.venue, hash), TheBranch(call)).logs
    requires !desk.Unsupported(owner) && desk.venue.idA != desk.venue.idB && fact.fills != []
    ensures FlowOf(fact, desk.venue, i) == FillsNet(fact.fills, owner, AssetAt(owner, desk.venue, i))
  {
    hide Settles, Outcome, MatchOf, OwnerFills, IsFactOf, Describes, AssetAt, FlowOf, FlowNet, FillsNet, Total;
    hide FillFees, FlowsAre, TheBranch, WordSpan;
    var v := desk.venue;
    FactDescribes(fact, block, tx, owner, v, call, hash);
    AssetIsSelected(owner, v, i);
    FlowOfIsFlowNet(fact, owner, v, i);
    OwnerFlowsAreFills(call, owner, v, hash, SettlementOf(fact, tx.logs), AssetAt(owner, v, i));
  }

  // ----- the interval

  datatype IntervalStatus =
    | IntervalMatched
    | IntervalUnavailable(blockNumber: Option<U64>, transactionHash: Option<Hash>, reason: Reason)

  ghost predicate ValidTransactions(block: Block) {
    forall t :: 0 <= t < |block.transactions| ==> block.transactions[t].Valid()
  }

  ghost predicate ValidBlocks(blocks: seq<Block>) {
    forall k :: 0 <= k < |blocks| ==> ValidTransactions(blocks[k])
  }

  ghost predicate Ascending(blocks: seq<Block>) {
    forall j, k :: 0 <= j < k < |blocks| ==> blocks[j].number < blocks[k].number
  }

  /** The first classifications of a block, none of them a refusal. */
  ghost predicate Cleared(cs: seq<Classification>, block: Block, owner: Address, desk: Desk, hash: MatchOrder -> Hash)
    requires ValidTransactions(block)
  {
    && |cs| <= |block.transactions|
    && forall t :: 0 <= t < |cs| ==>
         Classifies(cs[t], block, block.transactions[t], owner, desk, hash) && !cs[t].Unavailable?
  }

  /** The facts among some classifications, in order. */
  ghost function Collected(cs: seq<Classification>): seq<TradeFact> {
    if cs == [] then []
    else Collected(cs[..|cs| - 1]) + if cs[|cs| - 1].Fact? then [cs[|cs| - 1].fact] else []
  }

  ghost function CollectedAll(css: seq<seq<Classification>>): seq<TradeFact> {
    if css == [] then [] else CollectedAll(css[..|css| - 1]) + Collected(css[|css| - 1])
  }

  /** Every transaction of the first blocks is classified and none is refused. */
  ghost predicate AllCleared(css: seq<seq<Classification>>, blocks: seq<Block>, owner: Address, desk: Desk,
                             hash: MatchOrder -> Hash)
    requires ValidBlocks(blocks)
  {
    && |css| <= |blocks|
    && forall k :: 0 <= k < |css| ==>
         |css[k]| == |blocks[k].transactions| && Cleared(css[k], blocks[k], owner, desk, hash)
  }

  /** The refusal of a block is that of its first refused transaction. */
  ghost predicate RefusedAt(cs: seq<Classification>, block: Block, owner: Address, desk: Desk,
                            hash: MatchOrder -> Hash, transactionHash: Hash, reason: Reason)
    requires ValidTransactions(block)
  {
    && Cleared(cs, block, owner, desk, hash) && |cs| < |block.transactions|
    && block.transactions[|cs|].hash == transactionHash
    && Classifies(Unavailable(reason), block, block.transactions[|cs|], owner, desk, hash)
  }

  method ClassifyBlock(block: Block, owner: Address, desk: Desk, hash: MatchOrder -> Hash)
    returns (facts: seq<TradeFact>, refusal: Option<(Hash, Reason)>, ghost cs: seq<Classification>)
    requires ValidTransactions(block) && desk.venue.idA != desk.venue.idB
    ensures refusal.None? ==> |cs| == |block.transactions| && Cleared(cs, block, owner, desk, hash)
    ensures refusal.None? ==> facts == Collected(cs)
    ensures refusal.Some? ==> RefusedAt(cs, block, owner, desk, hash, refusal.value.0, refusal.value.1)
  {
    hide Classifies;
    facts, refusal, cs := [], None, [];
    for t := 0 to |block.transactions|
      invariant |cs| == t && Cleared(cs, block, owner, desk, hash)
      invariant facts == Collected(cs)
    {
      var tx := block.transactions[t];
      var c := ClassifyTransaction(block, tx, owner, desk, hash);
      if c.Unavailable? {
        refusal := Some((tx.hash, c.reason));
        return;
      }
      if c.Fact? { facts := facts + [c.fact]; }
      assert (cs + [c])[..t] == cs;
      cs := cs + [c];
    }
  }

  /** Classifies an interval whose inventory has already been replayed. */
  method ClassifyInterval(blocks: seq<Block>, inventory: Inventory.Status, owner: Address, desk: Desk,
                          hash: MatchOrder -> Hash)
    returns (status: IntervalStatus, facts: seq<TradeFact>, ghost css: seq<seq<Classification>>)
    requires ValidBlocks(blocks) && desk.venue.idA != desk.venue.idB
    ensures !inventory.Matched? <==> status == IntervalUnavailable(None, None, InventoryUnreconciled)
    ensures status.IntervalMatched? ==> |css| == |blocks| && AllCleared(css, blocks, owner, desk, hash)
    ensures status.IntervalMatched? ==> facts == CollectedAll(css)
    ensures status.IntervalUnavailable? ==> facts == []
    ensures status.IntervalUnavailable? && inventory.Matched? ==>
      exists k, cs, transactionHash: Hash ::
        0 <= k < |blocks| && |css| == k && AllCleared(css, blocks, owner, desk, hash)
        && RefusedAt(cs, blocks[k], owner, desk, hash, transactionHash, status.reason)
        && status.blockNumber == Some(blocks[k].number) && status.transactionHash == Some(transactionHash)
  {
    hide Cleared, RefusedAt, Collected;
    status, facts, css := IntervalMatched, [], [];
    if !inventory.Matched? {
      status := IntervalUnavailable(None, None, InventoryUnreconciled);
      return;
    }
    for k := 0 to |blocks|
      invariant |css| == k && AllCleared(css, blocks, owner, desk, hash)
      invariant facts == CollectedAll(css)
    {
      ghost var cs;
      var more, refusal;
      more, refusal, cs := ClassifyBlock(blocks[k], owner, desk, hash);
      if refusal.Some? {
        status := IntervalUnavailable(Some(blocks[k].number), Some(refusal.value.0), refusal.value.1);
        assert RefusedAt(cs, blocks[k], owner, desk, hash, refusal.value.0, status.reason);
        facts := [];
        return;
      }
      assert (css + [cs])[..k] == css;
      facts, css := facts + more, css + [cs];
    }
  }

  // ----- a matched interval is explained

  /** The net of all facts up to a block, for one asset. */
  ghost function FactsNet(facts: seq<TradeFact>, upTo: U64, v: Venue, i: Inventory.AssetIndex): int {
    if facts == [] then
      0
    else
      var last := facts[|facts| - 1];
      FactsNet(facts[..|facts| - 1], upTo, v, i) + if last.blockNumber <= upTo then FlowOf(last, v, i) else 0
  }

  lemma {:induction false} FactsNetConcat(facts: seq<TradeFact>, more: seq<TradeFact>, upTo: U64, v: Venue,
                                          i: Inventory.AssetIndex)
    ensures FactsNet(facts + more, upTo, v, i) == FactsNet(facts, upTo, v, i) + FactsNet(more, upTo, v, i)
  {
    hide FlowOf;
    if more == [] {
      assert facts + more == facts;
    } else {
      assert (facts + more)[..|facts + more| - 1] == facts + more[..|more| - 1];
      FactsNetConcat(facts, more[..|more| - 1], upTo, v, i);
    }
  }

  /** A cleared block's facts are worth what its logs move; seen from an earlier block, nothing. */
  lemma {:induction false} ClearedMoves(cs: seq<Classification>, block: Block, owner: Address, desk: Desk,
                                        hash: MatchOrder -> Hash, upTo: U64, i: Inventory.AssetIndex)
    requires ValidTransactions(block) && Cleared(cs, block, owner, desk, hash)
    ensures FactsNet(Collected(cs), upTo, desk.venue, i) == if block.number <= upTo
      then Net(TransactionsLogs(block.transactions, |cs|), owner, AssetAt(owner, desk.venue, i))
      else 0
  {
    hide Classifies, Net, FlowOf, AssetAt;
    NetLaws(owner, AssetAt(owner, desk.venue, i));
    if cs != [] {
      var front, last := cs[..|cs| - 1], cs[|cs| - 1];
      var tx := block.transactions[|cs| - 1];
      ClearedMoves(front, block, owner, desk, hash, upTo, i);
      ClassifiedMoves(last, block, tx, owner, desk, hash, i);
      if last.Fact? {
        FactOfBlock(last, block, tx, owner, desk, hash);
        assert Collected(cs) == Collected(front) + [last.fact];
        assert (Collected(front) + [last.fact])[..|Collected(front)|] == Collected(front);
      } else {
        assert Collected(cs) == Collected(front);
      }
    } else {
      NoFactsNoNet(upTo, desk.venue, i);
    }
  }

  lemma FactOfBlock(c: Classification, block: Block, tx: Transaction, owner: Address, desk: Desk,
                    hash: MatchOrder -> Hash)
    requires tx.Valid() && Classifies(c, block, tx, owner, desk, hash) && c.Fact?
    ensures c.fact.blockNumber == block.number
  {
    hide HasOwnerEvent, HasOwnerActivity, Settles, Outcome, MatchOf, OwnerFills, IsBinding, FillFees, FlowsAre;
    hide WordSpan;
  }

  /** The facts of the first n blocks, up to block k, are worth the logs of those blocks. */
  lemma {:induction false} FactsAreLogs(css: seq<seq<Classification>>, blocks: seq<Block>, owner: Address, desk: Desk,
                                        hash: MatchOrder -> Hash, k: nat, i: Inventory.AssetIndex)
    requires ValidBlocks(blocks) && Ascending(blocks) && AllCleared(css, blocks, owner, desk, hash)
    requires k < |blocks|
    ensures FactsNet(CollectedAll(css), blocks[k].number, desk.venue, i)
      == Net(BlocksLogs(blocks, Min(|css|, k + 1)), owner, AssetAt(owner, desk.venue, i))
  {
    hide Net, AssetAt, Cleared, Collected, FactsNet, ValidTransactions, TransactionsLogs, Classifies, WordSpan;
    NetLaws(owner, AssetAt(owner, desk.venue, i));
    if css == [] {
      NoFactsNoNet(blocks[k].number, desk.venue, i);
    } else {
      var n := |css| - 1;
      FactsAreLogs(css[..n], blocks, owner, desk, hash, k, i);
      ClearedMoves(css[n], blocks[n], owner, desk, hash, blocks[k].number, i);
      FactsNetConcat(CollectedAll(css[..n]), Collected(css[n]), blocks[k].number, desk.venue, i);
      assert blocks[n].number <= blocks[k].number <==> n <= k;
    }
  }

  lemma NoFactsNoNet(upTo: U64, v: Venue, i: Inventory.AssetIndex)
    ensures FactsNet([], upTo, v, i) == 0
  {
  }

  /** A matched interval explains everything: at every block boundary the opening balance plus
      the flows of the facts so far is the authenticated balance, for both positions and cash. */
  lemma MatchedIntervalExplainsBoundaries(css: seq<seq<Classification>>, blocks: seq<Block>, opening: Balances,
                                          owner: Address, desk: Desk, hash: MatchOrder -> Hash,
                                          k: nat, i: Inventory.AssetIndex)
    requires ValidBlocks(blocks) && Ascending(blocks) && desk.venue.idA != desk.venue.idB
    requires |css| == |blocks| && AllCleared(css, blocks, owner, desk, hash)
    requires k < |blocks| && Inventory.BoundaryMatches(opening, ScopeOf(owner, desk.venue), blocks, k)
    ensures Inventory.Get(blocks[k].authenticated, i)
      == Inventory.Get(opening, i) + FactsNet(CollectedAll(css), blocks[k].number, desk.venue, i)
  {
    hide AllCleared, FactsNet, Net, BlocksLogs, Inventory.BoundaryMatches;
    Inventory.MatchedExplainsBoundary(blocks, opening, ScopeOf(owner, desk.venue), k, i);
    FactsAreLogs(css, blocks, owner, desk, hash, k, i);
  }

  ghost predicate AllExplained(facts: seq<TradeFact>, owner: Address, v: Venue) {
    forall f :: f in facts ==> FillsExplain(f, owner, v)
  }

  lemma {:induction false} ClearedExplained(cs: seq<Classification>, block: Block, owner: Address, desk: Desk,
                                            hash: MatchOrder -> Hash)
    requires ValidTransactions(block) && Cleared(cs, block, owner, desk, hash)
    requires desk.venue.idA != desk.venue.idB
    ensures AllExplained(Collected(cs), owner, desk.venue)
  {
    hide Classifies, FillsExplain;
    if cs != [] {
      var last := cs[|cs| - 1];
      ClearedExplained(cs[..|cs| - 1], block, owner, desk, hash);
      if last.Fact? { FactIsFills(last, block, block.transactions[|cs| - 1], owner, desk, hash); }
    }
  }

  /** Every fact of a matched interval says in its fills exactly what its flows move. */
  lemma {:induction false} MatchedIntervalExplainsFills(css: seq<seq<Classification>>, blocks: seq<Block>,
                                                        owner: Address, desk: Desk, hash: MatchOrder -> Hash)
    requires ValidBlocks(blocks) && AllCleared(css, blocks, owner, desk, hash)
    requires desk.venue.idA != desk.venue.idB
    ensures AllExplained(CollectedAll(css), owner, desk.venue)
  {
    hide Cleared, FillsExplain, Collected, ValidTransactions;
    if css != [] {
      var n := |css| - 1;
      MatchedIntervalExplainsFills(css[..n], blocks, owner, desk, hash);
      ClearedExplained(css[n], blocks[n], owner, desk, hash);
    }
  }
}
