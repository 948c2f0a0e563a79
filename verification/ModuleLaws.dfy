/** What every run of the module replay keeps: the module holds exactly the pending funding, the
    owner is explained by trades and operations, and both are what the receipt logs move. */
module ModuleLaws {
  import opened Words
  import opened Ledger
  import opened Receipts
  import opened ModuleCalls
  import opened ModuleOperations
  import Inventory
  import Trades

  // ----- every registered trade is met

  lemma VisitMeets(state: State, block: Block, tx: Transaction, s: Setup)
    requires Visit(state, block, tx, s).Going?
    ensures Visit(state, block, tx, s).state.remaining == state.remaining - {(block.number, tx.index)}
  {
    hide CallOf, FundingOf, HasRelevantMovement, ApplyTrade, PendingMatches, Payout, OperationLogs, FundingLogs;
    hide Debit, Credit, Consume, WordSpan;
  }

  lemma {:induction false} VisitAllMeets(state: State, block: Block, s: Setup, n: nat)
    requires n <= |block.transactions| && VisitAll(state, block, s, n).Going?
    ensures var after := VisitAll(state, block, s, n).state.remaining;
      && after.Keys <= state.remaining.Keys
      && forall t :: 0 <= t < n ==> (block.number, block.transactions[t].index) !in after
  {
    hide Visit;
    if n > 0 {
      VisitAllMeets(state, block, s, n - 1);
      VisitMeets(VisitAll(state, block, s, n - 1).state, block, block.transactions[n - 1], s);
    }
  }

  ghost predicate Met(block: Block, remaining: map<TradeKey, Trades.TradeFact>) {
    forall t :: 0 <= t < |block.transactions| ==> (block.number, block.transactions[t].index) !in remaining
  }

  lemma {:induction false} ThroughMeets(start: State, blocks: seq<Block>, points: seq<Point>, s: Setup, k: nat)
    requires k <= |blocks| == |points| && Through(start, blocks, points, s, k).Going?
    ensures var after := Through(start, blocks, points, s, k).state.remaining;
      && after.Keys <= start.remaining.Keys
      && forall p :: 0 <= p < k ==> Met(blocks[p], after)
  {
    hide VisitAll, Compare;
    if k > 0 {
      var before, block := Through(start, blocks, points, s, k - 1).state, blocks[k - 1];
      ThroughMeets(start, blocks, points, s, k - 1);
      VisitAllMeets(before, block, s, |block.transactions|);
    }
  }

  /** Each trade fact is met exactly once: a replay that reaches the end has none left over, so
      the program's check for left-over facts never refuses. */
  lemma AllTradesMet(blocks: seq<Block>, points: seq<Point>, s: Setup, facts: seq<Trades.TradeFact>)
    requires |blocks| == |points| && Registrable(facts, blocks)
    requires Through(Start(s, facts), blocks, points, s, |blocks|).Going?
    ensures Through(Start(s, facts), blocks, points, s, |blocks|).state.remaining == map[]
  {
    hide Through;
    var after := Through(Start(s, facts), blocks, points, s, |blocks|).state.remaining;
    ThroughMeets(Start(s, facts), blocks, points, s, |blocks|);
    ByKeyHolds(facts);
    forall fact | fact in facts
      ensures KeyOf(fact) !in after
    {
      var block := FindBlock(blocks, fact.blockNumber).value;
      var p :| 0 <= p < |blocks| && blocks[p] == block;
      assert Met(blocks[p], after);
      assert KeyOf(fact) == (block.number, block.transactions[fact.transactionIndex].index);
    }
    assert after.Keys == {};
  }

  // ----- pending funding

  /** The pending amount of one asset, or of all, without a bound. */
  ghost function PendingTotal(pending: seq<Funding>, asset: Option<AssetIndex>): nat {
    if pending == [] then
      0
    else
      var last := pending[|pending| - 1];
      PendingTotal(pending[..|pending| - 1], asset)
      + if asset.None? || last.asset == asset.value then last.amount else 0
  }

  ghost function PendingOf(pending: seq<Funding>, i: AssetIndex): nat { PendingTotal(pending, Some(i)) }

  lemma {:induction false} PendingAmountIsTotal(pending: seq<Funding>, asset: Option<AssetIndex>)
    ensures PendingAmount(pending, asset)
      == if Fits(PendingTotal(pending, asset)) then Some(PendingTotal(pending, asset)) else None
  {
    hide WordSpan;
    if pending != [] {
      PendingAmountIsTotal(pending[..|pending| - 1], asset);
    }
  }

  lemma {:induction false} PendingOfOne(pending: seq<Funding>, i: AssetIndex)
    requires forall f :: f in pending ==> f.asset == i
    ensures PendingOf(pending, i) == PendingTotal(pending, None)
  {
    if pending != [] {
      PendingOfOne(pending[..|pending| - 1], i);
    }
  }

  lemma {:induction false} PendingOfNone(pending: seq<Funding>, i: AssetIndex)
    requires forall f :: f in pending ==> f.asset != i
    ensures PendingOf(pending, i) == 0
  {
    if pending != [] {
      PendingOfNone(pending[..|pending| - 1], i);
    }
  }

  lemma PendingOfMore(pending: seq<Funding>, f: Funding, i: AssetIndex)
    ensures PendingOf(pending + [f], i) == PendingOf(pending, i) + if f.asset == i then f.amount else 0
  {
    assert (pending + [f])[..|pending|] == pending;
  }

  /** The id of a pending transfer is the id of its asset. */
  ghost predicate WellFormed(pending: seq<Funding>, s: Setup) {
    forall f :: f in pending ==> f.positionId == match f.asset
      case PositionA => Some(s.IdA())
      case PositionB => Some(s.IdB())
      case PusdCash => None
  }

  /** A call that matches the pending funding uses all of it, asset by asset. */
  lemma MatchingUsesAll(pending: seq<Funding>, call: ModuleCall, s: Setup, i: AssetIndex)
    requires WellFormed(pending, s) && PendingMatches(pending, call) && s.IdA() != s.IdB()
    requires call.Redeem? ==> s.desk.venue.Lists(call.id)
    ensures PendingOf(pending, i) == Inventory.Get(Outflows(call, s), i)
  {
    hide PendingTotal, PendingAmount, WordSpan;
    PendingAmountIsTotal(pending, None);
    PendingAmountIsTotal(pending, Some(Inventory.PositionA));
    PendingAmountIsTotal(pending, Some(Inventory.PositionB));
    if forall f :: f in pending ==> f.asset == i {
      PendingOfOne(pending, i);
    }
    if forall f :: f in pending ==> f.asset != i {
      PendingOfNone(pending, i);
    }
  }

  // ----- what every step keeps

  /** The module holds exactly the pending funding. */
  ghost predicate Backed(state: State, s: Setup) {
    WellFormed(state.pending, s) && forall i :: Inventory.Get(state.module_, i) == PendingOf(state.pending, i)
  }

  /** What a fact is worth to somebody. */
  type Worth = Trades.TradeFact -> int

  ghost function OwnerWorth(s: Setup, i: AssetIndex): Worth { f => Trades.FlowOf(f, s.desk.venue, i) }

  /** What the trades met so far, those no longer registered, are worth. */
  ghost function MetNet(facts: seq<Trades.TradeFact>, left: set<TradeKey>, worth: Worth): int {
    if facts == [] then
      0
    else
      var last := facts[|facts| - 1];
      MetNet(facts[..|facts| - 1], left, worth) + if KeyOf(last) in left then 0 else worth(last)
  }

  ghost function OperationsNet(operations: seq<Operation>, i: AssetIndex): int {
    if operations == [] then
      0
    else
      var last := operations[|operations| - 1];
      OperationsNet(operations[..|operations| - 1], i)
      + Inventory.Get(last.inflows, i) - Inventory.Get(last.outflows, i)
  }

  lemma OperationsNetMore(operations: seq<Operation>, op: Operation, i: AssetIndex)
    ensures OperationsNet(operations + [op], i)
      == OperationsNet(operations, i) + Inventory.Get(op.inflows, i) - Inventory.Get(op.outflows, i)
  {
    assert (operations + [op])[..|operations|] == operations;
  }

  /** The owner's balance and what is pending are the opening balance, the trades met so far and
      the operations so far. */
  ghost predicate Explained(state: State, s: Setup, facts: seq<Trades.TradeFact>, i: AssetIndex) {
    Inventory.Get(state.owner, i) + PendingOf(state.pending, i)
    == Inventory.Get(s.opening, i) + MetNet(facts, state.remaining.Keys, OwnerWorth(s, i))
       + OperationsNet(state.operations, i)
  }

  /** The registered facts are facts of the interval, each under its own key. */
  ghost predicate Registered(state: State, facts: seq<Trades.TradeFact>) {
    Distinct(facts)
    && forall k :: k in state.remaining ==> state.remaining[k] in facts && KeyOf(state.remaining[k]) == k
  }

  ghost predicate Invariant(state: State, s: Setup, facts: seq<Trades.TradeFact>) {
    Backed(state, s) && Registered(state, facts) && forall i :: Explained(state, s, facts, i)
  }

  lemma {:induction false} MeetingNone(facts: seq<Trades.TradeFact>, left: set<TradeKey>, key: TradeKey, worth: Worth)
    requires forall f :: f in facts ==> KeyOf(f) != key
    ensures MetNet(facts, left - {key}, worth) == MetNet(facts, left, worth)
  {
    if facts != [] {
      assert facts[|facts| - 1] in facts;
      MeetingNone(facts[..|facts| - 1], left, key, worth);
    }
  }

  lemma {:induction false} MeetingOne(facts: seq<Trades.TradeFact>, left: set<TradeKey>, fact: Trades.TradeFact,
                                      worth: Worth)
    requires Distinct(facts) && fact in facts && KeyOf(fact) in left
    ensures MetNet(facts, left - {KeyOf(fact)}, worth) == MetNet(facts, left, worth) + worth(fact)
  {
    var front, last := facts[..|facts| - 1], facts[|facts| - 1];
    if last == fact {
      MeetingNone(front, left, KeyOf(fact), worth);
    } else {
      MeetingOne(front, left, fact, worth);
      var j :| 0 <= j < |facts| && facts[j] == fact;
      assert KeyOf(facts[j]) != KeyOf(facts[|facts| - 1]);
    }
  }

  lemma TradeMoves(b: Balances, fact: Trades.TradeFact, s: Setup, i: AssetIndex)
    requires ApplyTrade(b, fact).Some?
    ensures Inventory.Get(ApplyTrade(b, fact).value, i) == Inventory.Get(b, i) + Trades.FlowOf(fact, s.desk.venue, i)
  {
    hide WordSpan;
  }

  lemma TradeKeeps(state: State, key: TradeKey, s: Setup, facts: seq<Trades.TradeFact>)
    requires Invariant(state, s, facts) && key in state.remaining && VisitTrade(state, key).Going?
    ensures Invariant(VisitTrade(state, key).state, s, facts)
  {
    hide ApplyTrade, MetNet, Trades.FlowOf, PendingTotal, OperationsNet, Inventory.Get;
    var next := VisitTrade(state, key).state;
    assert next.remaining.Keys == state.remaining.Keys - {key};
    forall i
      ensures Explained(next, s, facts, i)
    {
      assert Explained(state, s, facts, i);
      MeetingOne(facts, state.remaining.Keys, state.remaining[key], OwnerWorth(s, i));
      TradeMoves(state.owner, state.remaining[key], s, i);
    }
  }

  lemma FundingMoves(state: State, call: FundingCall, fact: Funding, i: AssetIndex)
    requires ApplyFunding(state, call, fact).Some? && fact.amount == call.amount
    ensures var next := ApplyFunding(state, call, fact).value;
      var moved := if i == fact.asset then call.amount else 0;
      && Inventory.Get(next.owner, i) == Inventory.Get(state.owner, i) - moved
      && Inventory.Get(next.module_, i) == Inventory.Get(state.module_, i) + moved
      && PendingOf(next.pending, i) == PendingOf(state.pending, i) + moved
      && next.pending == state.pending + [fact] && next.operations == state.operations
      && next.remaining == state.remaining
  {
    hide WordSpan, PendingTotal;
    PendingOfMore(state.pending, fact, i);
  }

  lemma FundingKeeps(state: State, call: FundingCall, fact: Funding, s: Setup, facts: seq<Trades.TradeFact>)
    requires Invariant(state, s, facts) && ApplyFunding(state, call, fact).Some?
    requires fact.amount == call.amount && fact.asset == FundedAsset(call, s) && fact.positionId == FundedId(call)
    requires call.FundPosition? ==> s.desk.venue.Lists(call.id)
    ensures Invariant(ApplyFunding(state, call, fact).value, s, facts)
  {
    hide ApplyFunding, MetNet, PendingOf, OperationsNet, Inventory.Get, Distinct;
    var next := ApplyFunding(state, call, fact).value;
    FundingMoves(state, call, fact, Inventory.PositionA);
    forall i
      ensures Explained(next, s, facts, i) && Inventory.Get(next.module_, i) == PendingOf(next.pending, i)
    {
      assert Explained(state, s, facts, i);
      FundingMoves(state, call, fact, i);
    }
    forall f | f in next.pending
      ensures WellFormed([f], s)
    {
      if f != fact { assert f in state.pending; }
    }
    assert forall f :: f in next.pending ==> f in [f];
  }

  /** An operation takes everything that the module holds, and never more than it holds. */
  lemma ConsumeTakesAll(b: Balances, call: ModuleCall, s: Setup)
    requires forall i :: Inventory.Get(b, i) == Inventory.Get(Outflows(call, s), i)
    requires s.IdA() != s.IdB() && (call.Redeem? ==> s.desk.venue.Lists(call.id))
    ensures Consume(b, call, s) == Some(NOTHING)
  {
    hide WordSpan;
    assert Inventory.Get(b, Inventory.PositionA) == b.a && Inventory.Get(b, Inventory.PositionB) == b.b;
    assert Inventory.Get(b, Inventory.PusdCash) == b.cash;
  }

  lemma CreditMoves(b: Balances, inflows: Balances, i: AssetIndex)
    requires Credit(b, inflows).Some?
    ensures Inventory.Get(Credit(b, inflows).value, i) == Inventory.Get(b, i) + Inventory.Get(inflows, i)
  {
    hide WordSpan;
  }

  ghost predicate IsOperation(state: State, op: Operation, s: Setup) {
    PendingMatches(state.pending, op.call) && op.outflows == Outflows(op.call, s)
    && (op.call.Redeem? ==> s.desk.venue.Lists(op.call.id))
  }

  /** An accepted operation leaves the module with nothing; it is refused only when the owner's
      side overflows. */
  lemma OperationEmptiesModule(state: State, op: Operation, s: Setup)
    requires Backed(state, s) && IsOperation(state, op, s) && s.IdA() != s.IdB()
    ensures ApplyOperation(state, op, s).Some? <==> Credit(state.owner, op.inflows).Some?
    ensures ApplyOperation(state, op, s).Some? ==> ApplyOperation(state, op, s).value.module_ == NOTHING
  {
    hide Credit, Consume, Outflows, PendingMatches, PendingOf, Inventory.Get;
    forall i
      ensures Inventory.Get(state.module_, i) == Inventory.Get(Outflows(op.call, s), i)
    {
      MatchingUsesAll(state.pending, op.call, s, i);
    }
    ConsumeTakesAll(state.module_, op.call, s);
  }

  lemma OperationKeeps(state: State, op: Operation, s: Setup, facts: seq<Trades.TradeFact>)
    requires Invariant(state, s, facts) && IsOperation(state, op, s) && s.IdA() != s.IdB()
    requires ApplyOperation(state, op, s).Some?
    ensures Invariant(ApplyOperation(state, op, s).value, s, facts)
  {
    hide Credit, Consume, Outflows, PendingMatches, MetNet, OperationsNet, Inventory.Get;
    var next := ApplyOperation(state, op, s).value;
    OperationEmptiesModule(state, op, s);
    forall i
      ensures Explained(next, s, facts, i) && Inventory.Get(NOTHING, i) == 0
    {
      assert Explained(state, s, facts, i);
      MatchingUsesAll(state.pending, op.call, s, i);
      CreditMoves(state.owner, op.inflows, i);
      OperationsNetMore(state.operations, op, i);
      NothingIsZero(i);
    }
  }

  lemma NothingIsZero(i: AssetIndex)
    ensures Inventory.Get(NOTHING, i) == 0 && PendingOf([], i) == 0 && OperationsNet([], i) == 0
  {
  }

  // ----- whole runs

  lemma ParsedNamesPair(tx: Transaction, s: Setup)
    ensures CallOf(tx, s).Some? && CallOf(tx, s).value.Redeem? ==> s.desk.venue.Lists(CallOf(tx, s).value.id)
    ensures FundingOf(tx, s).Some? && FundingOf(tx, s).value.FundPosition?
      ==> s.desk.venue.Lists(FundingOf(tx, s).value.id)
  {
    hide WordSpan;
  }

  lemma VisitKeeps(state: State, block: Block, tx: Transaction, s: Setup, facts: seq<Trades.TradeFact>)
    requires Invariant(state, s, facts) && s.IdA() != s.IdB() && Visit(state, block, tx, s).Going?
    ensures Invariant(Visit(state, block, tx, s).state, s, facts)
  {
    hide CallOf, FundingOf, HasRelevantMovement, PendingMatches, Payout, OperationLogs, FundingLogs, Inflows, Outflows;
    hide ApplyFunding, ApplyOperation, Invariant, WordSpan, FundedAsset, FundedId, VisitTrade;
    var call, funding := CallOf(tx, s), FundingOf(tx, s);
    ParsedNamesPair(tx, s);
    if (block.number, tx.index) in state.remaining {
      TradeKeeps(state, (block.number, tx.index), s, facts);
    } else if tx.succeeded && funding.Some? {
      FundingKeeps(state, funding.value, FundingFact(block, tx, s, funding.value), s, facts);
    } else if tx.succeeded && call.Some? {
      var payout := Payout(call.value, s);
      OperationKeeps(state, Operation(call.value, payout.value, Inflows(call.value, payout.value),
                                      Outflows(call.value, s), state.pending, LocatorOf(block, tx)), s, facts);
    }
  }

  lemma {:induction false} VisitAllKeeps(state: State, block: Block, s: Setup, n: nat, facts: seq<Trades.TradeFact>)
    requires n <= |block.transactions| && Invariant(state, s, facts) && s.IdA() != s.IdB()
    requires VisitAll(state, block, s, n).Going?
    ensures Invariant(VisitAll(state, block, s, n).state, s, facts)
  {
    hide Visit, Invariant;
    if n > 0 {
      VisitAllKeeps(state, block, s, n - 1, facts);
      VisitKeeps(VisitAll(state, block, s, n - 1).state, block, block.transactions[n - 1], s, facts);
    }
  }

  lemma {:induction false} NothingMet(facts: seq<Trades.TradeFact>, left: set<TradeKey>, worth: Worth)
    requires forall f :: f in facts ==> KeyOf(f) in left
    ensures MetNet(facts, left, worth) == 0
  {
    if facts != [] {
      NothingMet(facts[..|facts| - 1], left, worth);
    }
  }

  lemma StartKeeps(s: Setup, facts: seq<Trades.TradeFact>)
    requires Distinct(facts)
    ensures Invariant(Start(s, facts), s, facts)
  {
    hide MetNet, PendingOf, OperationsNet, Inventory.Get, ByKey, Distinct;
    ByKeyHolds(facts);
    forall i
      ensures Explained(Start(s, facts), s, facts, i) && Inventory.Get(NOTHING, i) == PendingOf([], i)
    {
      NothingMet(facts, ByKey(facts).Keys, OwnerWorth(s, i));
      NothingIsZero(i);
    }
  }

  /** Throughout the interval the module holds the pending funding, and the owner is explained. */
  lemma {:induction false} ThroughKeeps(blocks: seq<Block>, points: seq<Point>, s: Setup,
                                        facts: seq<Trades.TradeFact>, k: nat)
    requires k <= |blocks| == |points| && Distinct(facts) && s.IdA() != s.IdB()
    requires Through(Start(s, facts), blocks, points, s, k).Going?
    ensures Invariant(Through(Start(s, facts), blocks, points, s, k).state, s, facts)
    ensures k > 0 ==> Authenticated(Through(Start(s, facts), blocks, points, s, k).state, blocks[k - 1], points[k - 1])
  {
    hide VisitAll, Invariant;
    if k == 0 {
      StartKeeps(s, facts);
    } else {
      var before, block := Through(Start(s, facts), blocks, points, s, k - 1).state, blocks[k - 1];
      ThroughKeeps(blocks, points, s, facts, k - 1);
      VisitAllKeeps(before, block, s, |block.transactions|, facts);
    }
  }

  /** The replayed balances are the authenticated ones. */
  ghost predicate Authenticated(state: State, block: Block, point: Point) {
    state.owner == block.authenticated && state.module_ == point.module_
  }

  /** Without pending funding the module holds nothing, so its last check never refuses. */
  lemma ModuleNeverLeftFull(blocks: seq<Block>, points: seq<Point>, s: Setup, facts: seq<Trades.TradeFact>,
                            through: U64)
    requires |blocks| == |points| && Distinct(facts) && s.IdA() != s.IdB()
    ensures var status := Interval(blocks, points, s, facts, through);
      status.Unavailable? ==> status.reason != ModuleNotEmpty
  {
    hide Through, MetNet, Explained, Registered, Inventory.Get;
    var end := Through(Start(s, facts), blocks, points, s, |blocks|);
    if end.Going? {
      ThroughKeeps(blocks, points, s, facts, |blocks|);
      if end.state.pending == [] { EmptyWhenNothingPends(end.state, s); }
    } else {
      StopsForOtherReasons(Start(s, facts), blocks, points, s, |blocks|);
    }
  }

  lemma EmptyWhenNothingPends(state: State, s: Setup)
    requires Backed(state, s) && state.pending == []
    ensures state.module_ == NOTHING
  {
    hide WordSpan;
    assert Inventory.Get(state.module_, Inventory.PositionA) == state.module_.a;
    assert Inventory.Get(state.module_, Inventory.PositionB) == state.module_.b;
    assert Inventory.Get(state.module_, Inventory.PusdCash) == state.module_.cash;
  }

  ghost predicate OtherReason(p: Progress) {
    p.Stopped? ==> !p.status.Matched? && (p.status.Unavailable? ==> p.status.reason != ModuleNotEmpty)
  }

  lemma {:induction false} VisitAllOtherReasons(state: State, block: Block, s: Setup, n: nat)
    requires n <= |block.transactions|
    ensures OtherReason(VisitAll(state, block, s, n))
  {
    hide CallOf, FundingOf, HasRelevantMovement, ApplyTrade, PendingMatches, OperationLogs, FundingLogs;
    hide ApplyFunding, ApplyOperation, WordSpan;
    if n > 0 {
      VisitAllOtherReasons(state, block, s, n - 1);
    }
  }

  lemma {:induction false} StopsForOtherReasons(start: State, blocks: seq<Block>, points: seq<Point>, s: Setup, k: nat)
    requires k <= |blocks| == |points|
    ensures OtherReason(Through(start, blocks, points, s, k))
  {
    hide VisitAll;
    if k > 0 {
      var before := Through(start, blocks, points, s, k - 1);
      StopsForOtherReasons(start, blocks, points, s, k - 1);
      if before.Going? {
        VisitAllOtherReasons(before.state, blocks[k - 1], s, |blocks[k - 1].transactions|);
      }
    }
  }

  ghost function TradesNet(facts: seq<Trades.TradeFact>, s: Setup, i: AssetIndex): int {
    MetNet(facts, {}, OwnerWorth(s, i))
  }

  /** A matched interval is fully explained: the opening balance, all trade facts and all
      operations, each counted once, give the last authenticated balance. */
  lemma MatchedIsExplained(blocks: seq<Block>, points: seq<Point>, s: Setup, facts: seq<Trades.TradeFact>,
                           through: U64, i: AssetIndex)
    requires 0 < |blocks| == |points| && Registrable(facts, blocks) && s.IdA() != s.IdB()
    requires Interval(blocks, points, s, facts, through).Matched?
    ensures Inventory.Get(blocks[|blocks| - 1].authenticated, i) == Inventory.Get(s.opening, i)
      + TradesNet(facts, s, i) + OperationsNet(Interval(blocks, points, s, facts, through).operations, i)
    ensures points[|blocks| - 1].module_ == NOTHING
  {
    hide Through, MetNet, Registered, WellFormed, PendingTotal, OperationsNet, Inventory.Get, Located;
    StopsForOtherReasons(Start(s, facts), blocks, points, s, |blocks|);
    ThroughKeeps(blocks, points, s, facts, |blocks|);
    AllTradesMet(blocks, points, s, facts);
    NothingIsZero(i);
    var end := Through(Start(s, facts), blocks, points, s, |blocks|).state;
    EmptyWhenNothingPends(end, s);
    assert Explained(end, s, facts, i);
    assert end.remaining.Keys == {};
  }

  // ----- the replay against the receipt logs

  ghost function AssetOf(s: Setup, i: AssetIndex): Asset { Trades.AssetAt(s.owner, s.desk.venue, i) }

  ghost function OwnerNet(logs: seq<Log>, s: Setup, i: AssetIndex): int { Net(logs, s.owner, AssetOf(s, i)) }

  ghost function ModuleNet(logs: seq<Log>, s: Setup, i: AssetIndex): int { Net(logs, s.Module(), AssetOf(s, i)) }

  /** The trade facts say what the logs of their transactions move for the owner, and `kept` what
      they move for the module; both are proved of the facts that the scan gives. */
  ghost predicate Faithful(facts: seq<Trades.TradeFact>, block: Block, tx: Transaction, s: Setup, i: AssetIndex,
                           kept: Worth) {
    forall f :: f in facts && KeyOf(f) == (block.number, tx.index) ==>
      Trades.FlowOf(f, s.desk.venue, i) == OwnerNet(tx.logs, s, i) && kept(f) == ModuleNet(tx.logs, s, i)
  }

  ghost predicate AllFaithful(facts: seq<Trades.TradeFact>, blocks: seq<Block>, s: Setup, i: AssetIndex, kept: Worth) {
    forall k :: 0 <= k < |blocks| ==> BlockFaithful(facts, blocks[k], s, i, kept)
  }

  ghost predicate BlockFaithful(facts: seq<Trades.TradeFact>, block: Block, s: Setup, i: AssetIndex, kept: Worth) {
    forall t :: 0 <= t < |block.transactions| ==> Faithful(facts, block, block.transactions[t], s, i, kept)
  }

  lemma FundingLogsMove(call: FundingCall, s: Setup, i: AssetIndex)
    requires s.Separate() && (call.FundPosition? ==> s.desk.venue.Lists(call.id))
    ensures var moved := if i == FundedAsset(call, s) then call.amount else 0;
      OwnerNet(FundingLogs(call, s), s, i) == -moved && ModuleNet(FundingLogs(call, s), s, i) == moved
  {
    hide Net, WordSpan;
    NetLaws(s.owner, AssetOf(s, i));
    NetLaws(s.Module(), AssetOf(s, i));
  }

  lemma NetOfThree(x: Log, y: Log, z: Log, who: Address, asset: Asset)
    ensures Net([x, y, z], who, asset) == Step(x, who, asset) + Step(y, who, asset) + Step(z, who, asset)
  {
    hide Net, Step;
    NetLaws(who, asset);
    assert [x, y, z] == [x] + [y] + [z];
  }

  lemma NetOfFour(x: Log, y: Log, z: Log, w: Log, who: Address, asset: Asset)
    ensures Net([x, y, z, w], who, asset)
      == Step(x, who, asset) + Step(y, who, asset) + Step(z, who, asset) + Step(w, who, asset)
  {
    hide Net, Step;
    NetLaws(who, asset);
    assert [x, y, z, w] == [x] + [y] + [z] + [w];
  }

  /** An operation's logs pay the owner its inflows and take from the module its outflows. */
  lemma OperationLogsMove(call: ModuleCall, payout: Option<U256>, s: Setup, i: AssetIndex)
    requires s.Separate() && (call.Redeem? ==> s.desk.venue.Lists(call.id))
    ensures OwnerNet(OperationLogs(call, payout, s), s, i) == Inventory.Get(Inflows(call, payout), i)
    ensures ModuleNet(OperationLogs(call, payout, s), s, i) == 0 - Inventory.Get(Outflows(call, s), i)
  {
    hide Net, WordSpan;
    var logs := OperationLogs(call, payout, s);
    if call.Redeem? {
      NetOfThree(logs[0], logs[1], logs[2], s.owner, AssetOf(s, i));
      NetOfThree(logs[0], logs[1], logs[2], s.Module(), AssetOf(s, i));
    } else {
      NetOfFour(logs[0], logs[1], logs[2], logs[3], s.owner, AssetOf(s, i));
      NetOfFour(logs[0], logs[1], logs[2], logs[3], s.Module(), AssetOf(s, i));
    }
  }

  lemma ConsumeMoves(b: Balances, call: ModuleCall, s: Setup, i: AssetIndex)
    requires Consume(b, call, s).Some? && s.IdA() != s.IdB() && (call.Redeem? ==> s.desk.venue.Lists(call.id))
    ensures Inventory.Get(Consume(b, call, s).value, i) == Inventory.Get(b, i) - Inventory.Get(Outflows(call, s), i)
  {
    hide WordSpan;
  }

  lemma QuietLogsMoveNothing(tx: Transaction, s: Setup, i: AssetIndex)
    requires !HasRelevantMovement(tx, s)
    ensures OwnerNet(tx.logs, s, i) == 0 && ModuleNet(tx.logs, s, i) == 0
  {
    hide Net, Trades.HasOwnerActivity;
    Trades.AssetIsSelected(s.owner, s.desk.venue, i);
    Trades.InactiveIsStill(tx.logs, s.owner, s.desk.venue, AssetOf(s, i));
    Trades.InactiveIsStill(tx.logs, s.Module(), s.desk.venue, AssetOf(s, i));
  }

  /** What the module holds by the replay, and what the trades met so far have moved to it. */
  ghost function ModuleSide(state: State, facts: seq<Trades.TradeFact>, i: AssetIndex, kept: Worth): int {
    Inventory.Get(state.module_, i) + MetNet(facts, state.remaining.Keys, kept)
  }

  /** One visited transaction changes both accounts by exactly the net of its logs. */
  lemma VisitMoves(state: State, block: Block, tx: Transaction, s: Setup, facts: seq<Trades.TradeFact>, i: AssetIndex,
                   kept: Worth)
    requires Visit(state, block, tx, s).Going? && s.Separate()
    requires Registered(state, facts) && Faithful(facts, block, tx, s, i, kept)
    ensures var next := Visit(state, block, tx, s).state;
      && Inventory.Get(next.owner, i) == Inventory.Get(state.owner, i) + OwnerNet(tx.logs, s, i)
      && ModuleSide(next, facts, i, kept) == ModuleSide(state, facts, i, kept) + ModuleNet(tx.logs, s, i)
  {
    hide CallOf, FundingOf, HasRelevantMovement, PendingMatches, Payout, OperationLogs, FundingLogs, Inflows, Outflows;
    hide ApplyFunding, Credit, Consume, WordSpan, FundedAsset, FundedId, ApplyTrade, Trades.FlowOf, Inventory.Get;
    hide OwnerNet, ModuleNet, Distinct, MetNet;
    var call, funding := CallOf(tx, s), FundingOf(tx, s);
    ParsedNamesPair(tx, s);
    if (block.number, tx.index) in state.remaining {
      TradeMoves(state.owner, state.remaining[(block.number, tx.index)], s, i);
      MeetingOne(facts, state.remaining.Keys, state.remaining[(block.number, tx.index)], kept);
      assert Visit(state, block, tx, s).state.remaining.Keys == state.remaining.Keys - {(block.number, tx.index)};
    } else if tx.succeeded && funding.Some? {
      FundingMoves(state, funding.value, FundingFact(block, tx, s, funding.value), i);
      FundingLogsMove(funding.value, s, i);
    } else if tx.succeeded && call.Some? {
      var payout := Payout(call.value, s);
      CreditMoves(state.owner, Inflows(call.value, payout.value), i);
      ConsumeMoves(state.module_, call.value, s, i);
      OperationLogsMove(call.value, payout.value, s, i);
    } else {
      QuietLogsMoveNothing(tx, s, i);
    }
  }

  lemma {:induction false} VisitAllMoves(state: State, block: Block, s: Setup, n: nat, facts: seq<Trades.TradeFact>,
                                         i: AssetIndex, kept: Worth)
    requires n <= |block.transactions| && VisitAll(state, block, s, n).Going? && s.Separate()
    requires Invariant(state, s, facts) && BlockFaithful(facts, block, s, i, kept)
    ensures var next, logs := VisitAll(state, block, s, n).state, TransactionsLogs(block.transactions, n);
      && Inventory.Get(next.owner, i) == Inventory.Get(state.owner, i) + OwnerNet(logs, s, i)
      && ModuleSide(next, facts, i, kept) == ModuleSide(state, facts, i, kept) + ModuleNet(logs, s, i)
  {
    hide Visit, Backed, Registered, Explained, Faithful, Net, AssetOf, Inventory.Get, ModuleSide;
    NetLaws(s.owner, AssetOf(s, i));
    NetLaws(s.Module(), AssetOf(s, i));
    if n > 0 {
      VisitAllMoves(state, block, s, n - 1, facts, i, kept);
      VisitAllKeeps(state, block, s, n - 1, facts);
      VisitMoves(VisitAll(state, block, s, n - 1).state, block, block.transactions[n - 1], s, facts, i, kept);
    }
  }

  /** At every boundary that the replay passes, the authenticated balances of the owner are the
      opening ones plus the net of all receipt logs so far; those of the module are the net of all
      logs so far but for what the trades have moved to it. */
  lemma {:induction false} BoundariesMatchLogs(blocks: seq<Block>, points: seq<Point>, s: Setup,
                                               facts: seq<Trades.TradeFact>, k: nat, i: AssetIndex, kept: Worth)
    requires k <= |blocks| == |points| && Distinct(facts) && s.Separate() && AllFaithful(facts, blocks, s, i, kept)
    requires Through(Start(s, facts), blocks, points, s, k).Going?
    ensures var state := Through(Start(s, facts), blocks, points, s, k).state;
      && Inventory.Get(state.owner, i) == Inventory.Get(s.opening, i) + OwnerNet(BlocksLogs(blocks, k), s, i)
      && ModuleSide(state, facts, i, kept) == ModuleNet(BlocksLogs(blocks, k), s, i)
      && (k > 0 ==> Authenticated(state, blocks[k - 1], points[k - 1]))
  {
    hide VisitAll, Invariant, BlockFaithful, Net, AssetOf, Inventory.Get, TransactionsLogs, MetNet, Distinct, ByKey;
    NetLaws(s.owner, AssetOf(s, i));
    NetLaws(s.Module(), AssetOf(s, i));
    if k == 0 {
      NothingIsZero(i);
      ByKeyHolds(facts);
      NothingMet(facts, ByKey(facts).Keys, kept);
    } else {
      var before, block := Through(Start(s, facts), blocks, points, s, k - 1).state, blocks[k - 1];
      BoundariesMatchLogs(blocks, points, s, facts, k - 1, i, kept);
      ThroughKeeps(blocks, points, s, facts, k - 1);
      VisitAllMoves(before, block, s, |block.transactions|, facts, i, kept);
    }
  }

  // ----- where operations come from

  /** The operation is one successful transaction, sent by the owner to the module without value,
      whose calldata is the call's one encoding and whose logs are exactly the operation's; its
      funding adds up, asset by asset, to what it takes from the owner. */
  ghost predicate IsOperationOf(op: Operation, block: Block, tx: Transaction, s: Setup) {
    && tx.succeeded && tx.to == Some(s.Module()) && SentByOwner(tx, s)
    && Callable(op.call, s.Parties()) && tx.input.GetOr([]) == EncodeModuleCall(op.call, s.Parties())
    && tx.logs == OperationLogs(op.call, op.payout, s) && op.locator == LocatorOf(block, tx)
    && op.inflows == Inflows(op.call, op.payout) && op.outflows == Outflows(op.call, s)
    && (op.call.Redeem? <==> op.payout.Some?)
    && forall i :: PendingOf(op.fundings, i) == Inventory.Get(op.outflows, i)
  }

  ghost predicate ComesFrom(op: Operation, blocks: seq<Block>, s: Setup) {
    exists k, t :: 0 <= k < |blocks| && 0 <= t < |blocks[k].transactions|
                   && IsOperationOf(op, blocks[k], blocks[k].transactions[t], s)
  }

  ghost predicate AllComeFrom(operations: seq<Operation>, blocks: seq<Block>, s: Setup) {
    forall op :: op in operations ==> ComesFrom(op, blocks, s)
  }

  lemma PayoutOnlyForRedeem(call: ModuleCall, s: Setup)
    ensures Payout(call, s).Right? ==> (call.Redeem? <==> Payout(call, s).value.Some?)
  {
    hide WordSpan;
  }

  lemma VisitedOperation(state: State, block: Block, tx: Transaction, s: Setup, call: ModuleCall)
    requires Backed(state, s) && s.IdA() != s.IdB() && tx.succeeded && CallOf(tx, s) == Some(call)
    requires VisitOperation(state, block, tx, s, call).Going?
    ensures var next := VisitOperation(state, block, tx, s, call).state;
      exists op :: next.operations == state.operations + [op] && IsOperationOf(op, block, tx, s)
  {
    ModuleCallRoundTrip(tx.input.GetOr([]), call, s.Parties());
    PayoutOnlyForRedeem(call, s);
    ParsedNamesPair(tx, s);
    hide ParseModuleCall, EncodeModuleCall, PendingMatches, Payout, OperationLogs, Inflows, Outflows, ApplyOperation;
    hide Inventory.Get, PendingOf, WordSpan;
    forall i
      ensures PendingOf(state.pending, i) == Inventory.Get(Outflows(call, s), i)
    {
      MatchingUsesAll(state.pending, call, s, i);
    }
    var payout := Payout(call, s).value;
    var op := Operation(call, payout, Inflows(call, payout), Outflows(call, s), state.pending, LocatorOf(block, tx));
    assert IsOperationOf(op, block, tx, s);
    AppliedAppends(state, op, s);
  }

  lemma AppliedAppends(state: State, op: Operation, s: Setup)
    requires ApplyOperation(state, op, s).Some?
    ensures ApplyOperation(state, op, s).value.operations == state.operations + [op]
  {
  }

  lemma VisitKeepsOrigins(state: State, blocks: seq<Block>, k: nat, t: nat, s: Setup)
    requires k < |blocks| && t < |blocks[k].transactions| && Backed(state, s) && s.IdA() != s.IdB()
    requires AllComeFrom(state.operations, blocks, s)
    requires Visit(state, blocks[k], blocks[k].transactions[t], s).Going?
    ensures AllComeFrom(Visit(state, blocks[k], blocks[k].transactions[t], s).state.operations, blocks, s)
  {
    hide CallOf, FundingOf, HasRelevantMovement, VisitTrade, VisitFunding, VisitOperation, IsOperationOf, Backed;
    var block, tx := blocks[k], blocks[k].transactions[t];
    OthersKeepOperations(state, block, tx, s);
    if CallOf(tx, s).Some? && VisitOperation(state, block, tx, s, CallOf(tx, s).value).Going? && tx.succeeded {
      VisitedOperation(state, block, tx, s, CallOf(tx, s).value);
    }
  }

  lemma OthersKeepOperations(state: State, block: Block, tx: Transaction, s: Setup)
    ensures var key := (block.number, tx.index);
      key in state.remaining && VisitTrade(state, key).Going? ==>
        VisitTrade(state, key).state.operations == state.operations
    ensures FundingOf(tx, s).Some? && VisitFunding(state, block, tx, s, FundingOf(tx, s).value).Going? ==>
      VisitFunding(state, block, tx, s, FundingOf(tx, s).value).state.operations == state.operations
  {
    hide FundingOf, ApplyTrade, FundingLogs, FundedAsset, FundedId, WordSpan, Debit, Credit;
  }

  lemma {:induction false} VisitAllKeepsOrigins(state: State, blocks: seq<Block>, k: nat, n: nat, s: Setup,
                                                facts: seq<Trades.TradeFact>)
    requires k < |blocks| && n <= |blocks[k].transactions| && Invariant(state, s, facts) && s.IdA() != s.IdB()
    requires AllComeFrom(state.operations, blocks, s) && VisitAll(state, blocks[k], s, n).Going?
    ensures AllComeFrom(VisitAll(state, blocks[k], s, n).state.operations, blocks, s)
  {
    hide Visit, AllComeFrom, Backed, Explained, Registered;
    if n > 0 {
      VisitAllKeepsOrigins(state, blocks, k, n - 1, s, facts);
      VisitAllKeeps(state, blocks[k], s, n - 1, facts);
      VisitKeepsOrigins(VisitAll(state, blocks[k], s, n - 1).state, blocks, k, n - 1, s);
    }
  }

  /** Every operation that a replay reports is such a transaction of the interval. */
  lemma {:induction false} OperationsAreTransactions(blocks: seq<Block>, points: seq<Point>, s: Setup,
                                                     facts: seq<Trades.TradeFact>, k: nat)
    requires k <= |blocks| == |points| && Distinct(facts) && s.IdA() != s.IdB()
    requires Through(Start(s, facts), blocks, points, s, k).Going?
    ensures AllComeFrom(Through(Start(s, facts), blocks, points, s, k).state.operations, blocks, s)
  {
    hide VisitAll, Invariant, ComesFrom;
    if k > 0 {
      OperationsAreTransactions(blocks, points, s, facts, k - 1);
      ThroughKeeps(blocks, points, s, facts, k - 1);
      VisitAllKeepsOrigins(Through(Start(s, facts), blocks, points, s, k - 1).state, blocks, k - 1,
                           |blocks[k - 1].transactions|, s, facts);
    }
  }
}
