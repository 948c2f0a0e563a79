/** Replays the directly funded operations of the module: transfers to the module are pending
    until one split, merge or redemption uses exactly what is pending. */
module ModuleOperations {
  import opened Words
  import opened Ledger
  import opened Receipts
  import opened ModuleCalls
  import Inventory
  import Settlement
  import Trades

  type AssetIndex = Inventory.AssetIndex

  const RESULT_SCALE: U256 := 1_000_000

  datatype Reason =
    | UnsupportedDirectCall | UnsupportedOwnerActivity | SourceSettlementMismatch | ResultUnavailable
    | ArithmeticUnavailable | MinterRoleUnavailable | ModuleNotEmpty

  datatype Either<T> = Left(reason: Reason) | Right(value: T)

  datatype Holder = Owner | Module

  datatype Locator = Locator(blockNumber: U64, blockHash: Hash, transactionHash: Hash, transactionIndex: U64,
                             logIndex: U64)

  /** A transfer to the module that no operation has used yet. */
  datatype Funding = Funding(locator: Locator, asset: AssetIndex, positionId: Option<U256>, amount: U256)

  datatype Operation = Operation(
    call: ModuleCall, payout: Option<U256>, inflows: Balances, outflows: Balances,
    fundings: seq<Funding>, locator: Locator)

  /** What is fixed over an interval. */
  datatype Setup = Setup(
    owner: Address, desk: Trades.Desk, condition: Hash, resultLength: U256, numerators: Option<(U256, U256)>,
    roles: U256, opening: Balances)
  {
    function Module(): Address { desk.venue.module_ }

    function IdA(): U256 { desk.venue.idA }

    function IdB(): U256 { desk.venue.idB }

    function Parties(): Parties { ModuleCalls.Parties(owner, Module(), condition, IdA(), IdB()) }

    /** The accounts and the two ids are different from each other. */
    predicate Separate() {
      owner != Module() && owner != ZERO_ADDRESS && Module() != ZERO_ADDRESS && IdA() != IdB()
    }
  }

  /** The evidence at the end of a block, beside the owner's authenticated balances. */
  datatype Point = Point(module_: Balances, roles: U256, resultContinues: bool, controlsChanged: bool)

  const NOTHING := Balances(0, 0, 0)

  type TradeKey = (U64, U64)

  function KeyOf(fact: Trades.TradeFact): TradeKey { (fact.blockNumber, fact.transactionIndex) }

  datatype State = State(
    owner: Balances, module_: Balances, pending: seq<Funding>, operations: seq<Operation>,
    remaining: map<TradeKey, Trades.TradeFact>)

  datatype Status =
    | Matched(operations: seq<Operation>)
    | Mismatch(blockNumber: U64, holder: Holder, asset: AssetIndex, authenticated: U256, reconstructed: U256)
    | Unavailable(blockNumber: U64, transactionHash: Option<Hash>, reason: Reason)
    | Unverified

  /** After some evidence the replay goes on, or it has its status. */
  datatype Progress = Going(state: State) | Stopped(status: Status)

  // ----- amounts

  function Only(i: AssetIndex, amount: U256): Balances { Inventory.Set(NOTHING, i, amount) }

  function AddThenSub(balance: U256, inflow: U256, outflow: U256): Option<U256> {
    var up :- CheckedAdd(balance, inflow);
    CheckedSub(up, outflow)
  }

  function Credit(b: Balances, inflows: Balances): Option<Balances> {
    var a :- CheckedAdd(b.a, inflows.a);
    var b2 :- CheckedAdd(b.b, inflows.b);
    var cash :- CheckedAdd(b.cash, inflows.cash);
    Some(Balances(a, b2, cash))
  }

  function Debit(b: Balances, i: AssetIndex, amount: U256): Option<Balances> {
    var rest :- CheckedSub(Inventory.Get(b, i), amount);
    Some(Inventory.Set(b, i, rest))
  }

  // ----- the steps

  function ApplyTrade(b: Balances, fact: Trades.TradeFact): Option<Balances> {
    var a :- AddThenSub(b.a, fact.flows.inA, fact.flows.outA);
    var b2 :- AddThenSub(b.b, fact.flows.inB, fact.flows.outB);
    var cash :- AddThenSub(b.cash, fact.flows.cashIn, fact.flows.cashOut);
    Some(Balances(a, b2, cash))
  }

  function FundedAsset(call: FundingCall, s: Setup): AssetIndex {
    match call
    case FundPusd(_) => Inventory.PusdCash
    case FundPosition(id, _) => if id == s.IdA() then Inventory.PositionA else Inventory.PositionB
  }

  function FundedId(call: FundingCall): Option<U256> {
    match call case FundPusd(_) => None case FundPosition(id, _) => Some(id)
  }

  function ApplyFunding(state: State, call: FundingCall, fact: Funding): Option<State> {
    var owner :- Debit(state.owner, fact.asset, call.amount);
    var module_ :- Credit(state.module_, Only(fact.asset, call.amount));
    Some(state.(owner := owner, module_ := module_, pending := state.pending + [fact]))
  }

  /** The checked sum of the pending amounts of one asset, or of all when no asset is named. */
  function PendingAmount(pending: seq<Funding>, asset: Option<AssetIndex>): Option<U256> {
    if pending == [] then
      Some(0)
    else
      var last := pending[|pending| - 1];
      var front :- PendingAmount(pending[..|pending| - 1], asset);
      if asset.None? || last.asset == asset.value then CheckedAdd(front, last.amount) else Some(front)
  }

  predicate PendingMatches(pending: seq<Funding>, call: ModuleCall) {
    pending != [] &&
    match call
    case Split(amount) =>
      (forall f :: f in pending ==> f.asset == Inventory.PusdCash) && PendingAmount(pending, None) == Some(amount)
    case Merge(amount) =>
      (forall f :: f in pending ==> f.asset != Inventory.PusdCash)
      && PendingAmount(pending, Some(Inventory.PositionA)) == Some(amount)
      && PendingAmount(pending, Some(Inventory.PositionB)) == Some(amount)
    case Redeem(id, amount) =>
      (forall f :: f in pending ==> f.positionId == Some(id)) && PendingAmount(pending, None) == Some(amount)
  }

  /** What a redemption pays: the amount at the stored result of its outcome, rounded down. */
  function Payout(call: ModuleCall, s: Setup): (r: Either<Option<U256>>) {
    if !call.Redeem? then
      Right(None)
    else if s.numerators.None? then
      Left(ResultUnavailable)
    else
      var (first, second) := s.numerators.value;
      if s.resultLength != 2 || CheckedAdd(first, second) != Some(RESULT_SCALE) then
        Left(ResultUnavailable)
      else
        var product := CheckedMul(call.amount, if call.id == s.IdA() then first else second);
        if product.None? then Left(ArithmeticUnavailable) else Right(CheckedDiv(product.value, RESULT_SCALE))
  }

  function Inflows(call: ModuleCall, payout: Option<U256>): Balances {
    match call
    case Split(amount) => Balances(amount, amount, 0)
    case Merge(amount) => Balances(0, 0, amount)
    case Redeem(_, _) => Balances(0, 0, payout.GetOr(0))
  }

  function Outflows(call: ModuleCall, s: Setup): Balances {
    match call
    case Split(amount) => Balances(0, 0, amount)
    case Merge(amount) => Balances(amount, amount, 0)
    case Redeem(id, amount) => Only(if id == s.IdB() then Inventory.PositionB else Inventory.PositionA, amount)
  }

  /** What the operation takes from the module. */
  function Consume(b: Balances, call: ModuleCall, s: Setup): Option<Balances> {
    match call
    case Split(amount) => Debit(b, Inventory.PusdCash, amount)
    case Merge(amount) =>
      var first :- Debit(b, Inventory.PositionA, amount);
      Debit(first, Inventory.PositionB, amount)
    case Redeem(id, amount) => Debit(b, if id == s.IdA() then Inventory.PositionA else Inventory.PositionB, amount)
  }

  function ApplyOperation(state: State, op: Operation, s: Setup): Option<State> {
    var owner :- Credit(state.owner, op.inflows);
    var module_ :- Consume(state.module_, op.call, s);
    Some(state.(owner := owner, module_ := module_, pending := [], operations := state.operations + [op]))
  }

  // ----- the logs that each step must have

  function FundingLogs(call: FundingCall, s: Setup): seq<Log> {
    match call
    case FundPusd(amount) => [Settlement.Pays(s.owner, s.Module(), amount)]
    case FundPosition(id, amount) => [Settlement.Gives(s.owner, s.owner, s.Module(), id, amount)]
  }

  function OperationLogs(call: ModuleCall, payout: Option<U256>, s: Setup): seq<Log> {
    match call
    case Split(amount) =>
      [Settlement.Gives(s.Module(), ZERO_ADDRESS, s.owner, s.IdA(), amount),
       Settlement.Gives(s.Module(), ZERO_ADDRESS, s.owner, s.IdB(), amount),
       Settlement.Pays(s.Module(), ZERO_ADDRESS, amount),
       Noted(PositionsSplit(s.Module(), s.owner, s.condition, s.owner, s.owner, amount))]
    case Merge(amount) =>
      [Settlement.Pays(ZERO_ADDRESS, s.owner, amount),
       Settlement.Gives(s.Module(), s.Module(), ZERO_ADDRESS, s.IdA(), amount),
       Settlement.Gives(s.Module(), s.Module(), ZERO_ADDRESS, s.IdB(), amount),
       Noted(PositionsMerged(s.Module(), s.owner, s.condition, s.owner, amount))]
    case Redeem(id, amount) =>
      [Settlement.Pays(ZERO_ADDRESS, s.owner, payout.GetOr(0)),
       Settlement.Gives(s.Module(), s.Module(), ZERO_ADDRESS, id, amount),
       Noted(PositionRedeemed(s.Module(), s.owner, id, s.owner, amount, payout.GetOr(0)))]
  }

  /** Whether some movement of pUSD or of a selected position names the owner or the module. */
  predicate HasRelevantMovement(tx: Transaction, s: Setup) {
    Trades.HasOwnerActivity(tx.logs, s.owner, s.desk.venue)
    || Trades.HasOwnerActivity(tx.logs, s.Module(), s.desk.venue)
  }

  // ----- one transaction

  function CallOf(tx: Transaction, s: Setup): Option<ModuleCall> {
    if tx.to == Some(s.Module()) then ParseModuleCall(tx.input.GetOr([]), s.Parties()) else None
  }

  function FundingOf(tx: Transaction, s: Setup): Option<FundingCall> {
    if tx.to == Some(s.desk.pusd) then ParsePusdFunding(tx.input.GetOr([]), s.Parties())
    else if tx.to == Some(s.desk.positionManager) then ParsePositionFunding(tx.input.GetOr([]), s.Parties())
    else None
  }

  /** The locator of a transaction is that of its last log; it is asked for only when logs exist. */
  function LocatorOf(block: Block, tx: Transaction): Locator {
    Locator(block.number, block.hash, tx.hash, tx.index,
            if tx.logIndexes == [] then 0 else tx.logIndexes[|tx.logIndexes| - 1])
  }

  predicate SentByOwner(tx: Transaction, s: Setup) {
    tx.recoveredFrom == Some(s.owner) && tx.value == 0 && tx.replayProtected
  }

  function Refuse(block: Block, tx: Transaction, reason: Reason): Progress {
    Stopped(Unavailable(block.number, Some(tx.hash), reason))
  }

  function GoOn(state: Option<State>): Progress {
    if state.None? then Stopped(Unverified) else Going(state.value)
  }

  function VisitTrade(state: State, key: TradeKey): Progress
    requires key in state.remaining
  {
    var owner := ApplyTrade(state.owner, state.remaining[key]);
    if owner.None? then Stopped(Unverified)
    else Going(state.(owner := owner.value, remaining := state.remaining - {key}))
  }

  function FundingFact(block: Block, tx: Transaction, s: Setup, call: FundingCall): Funding {
    Funding(LocatorOf(block, tx), FundedAsset(call, s), FundedId(call), call.amount)
  }

  function VisitFunding(state: State, block: Block, tx: Transaction, s: Setup, call: FundingCall): Progress {
    if !SentByOwner(tx, s) then Refuse(block, tx, UnsupportedOwnerActivity)
    else if tx.logs != FundingLogs(call, s) then Refuse(block, tx, SourceSettlementMismatch)
    else GoOn(ApplyFunding(state, call, FundingFact(block, tx, s, call)))
  }

  function VisitOperation(state: State, block: Block, tx: Transaction, s: Setup, call: ModuleCall): Progress {
    if !SentByOwner(tx, s) then
      Refuse(block, tx, UnsupportedOwnerActivity)
    else if !PendingMatches(state.pending, call) then
      Refuse(block, tx, SourceSettlementMismatch)
    else
      var payout := Payout(call, s);
      if payout.Left? then Refuse(block, tx, payout.reason)
      else if tx.logs != OperationLogs(call, payout.value, s) then Refuse(block, tx, SourceSettlementMismatch)
      else
        GoOn(ApplyOperation(state, Operation(call, payout.value, Inflows(call, payout.value), Outflows(call, s),
                                             state.pending, LocatorOf(block, tx)), s))
  }

  function Visit(state: State, block: Block, tx: Transaction, s: Setup): Progress {
    var key, call, funding := (block.number, tx.index), CallOf(tx, s), FundingOf(tx, s);
    if key in state.remaining then
      VisitTrade(state, key)
    else if tx.to == Some(s.Module()) && call.None? then
      Refuse(block, tx, UnsupportedDirectCall)
    else if !tx.succeeded then
      if tx.to == Some(s.Module()) || funding.Some? || HasRelevantMovement(tx, s) then
        Refuse(block, tx, SourceSettlementMismatch)
      else Going(state)
    else if funding.Some? then
      VisitFunding(state, block, tx, s, funding.value)
    else if call.Some? then
      VisitOperation(state, block, tx, s, call.value)
    else if HasRelevantMovement(tx, s) then
      Refuse(block, tx, UnsupportedOwnerActivity)
    else
      Going(state)
  }

  /** The replay of the first n transactions of a block. */
  ghost function VisitAll(state: State, block: Block, s: Setup, n: nat): Progress
    requires n <= |block.transactions|
  {
    if n == 0 then
      Going(state)
    else
      var before := VisitAll(state, block, s, n - 1);
      if before.Stopped? then before else Visit(before.state, block, block.transactions[n - 1], s)
  }

  // ----- one boundary

  predicate HasMinterRole(roles: U256) { roles % 2 == 1 }

  function CompareAsset(state: State, block: Block, point: Point, i: AssetIndex): Option<Status> {
    var owner, module_ := Inventory.Get(state.owner, i), Inventory.Get(state.module_, i);
    if Inventory.Get(block.authenticated, i) != owner then
      Some(Mismatch(block.number, Owner, i, Inventory.Get(block.authenticated, i), owner))
    else if Inventory.Get(point.module_, i) != module_ then
      Some(Mismatch(block.number, Module, i, Inventory.Get(point.module_, i), module_))
    else
      None
  }

  /** The first difference, asset by asset, the owner before the module. */
  function Compare(state: State, block: Block, point: Point): (r: Option<Status>)
    ensures r.None? <==> state.owner == block.authenticated && state.module_ == point.module_
  {
    var a := CompareAsset(state, block, point, Inventory.PositionA);
    var b := CompareAsset(state, block, point, Inventory.PositionB);
    if a.Some? then a else if b.Some? then b else CompareAsset(state, block, point, Inventory.PusdCash)
  }

  function Boundary(state: State, block: Block, point: Point, s: Setup): Progress {
    if !point.resultContinues then
      Stopped(Unavailable(block.number, None, ResultUnavailable))
    else if point.controlsChanged then
      Stopped(Unavailable(block.number, None, UnsupportedOwnerActivity))
    else if !HasMinterRole(point.roles) || point.roles != s.roles then
      Stopped(Unavailable(block.number, None, MinterRoleUnavailable))
    else
      var difference := Compare(state, block, point);
      if difference.Some? then Stopped(difference.value) else Going(state)
  }

  // ----- the trade facts that the interval must contain

  function FindBlock(blocks: seq<Block>, number: U64): (r: Option<Block>)
    ensures r.Some? ==> r.value in blocks && r.value.number == number
  {
    if blocks == [] then None
    else if blocks[0].number == number then Some(blocks[0])
    else FindBlock(blocks[1..], number)
  }

  /** The fact names a transaction of the evidence by all of its locators. */
  predicate Located(fact: Trades.TradeFact, blocks: seq<Block>) {
    var block := FindBlock(blocks, fact.blockNumber);
    && block.Some? && fact.transactionIndex < |block.value.transactions|
    && var tx := block.value.transactions[fact.transactionIndex];
       block.value.hash == fact.blockHash && tx.index == fact.transactionIndex && tx.hash == fact.transactionHash
  }

  ghost predicate Registrable(facts: seq<Trades.TradeFact>, blocks: seq<Block>) {
    && (forall f :: f in facts ==> Located(f, blocks))
    && Distinct(facts)
  }

  ghost predicate Distinct(facts: seq<Trades.TradeFact>) {
    forall i, j :: 0 <= i < j < |facts| ==> KeyOf(facts[i]) != KeyOf(facts[j])
  }

  ghost function ByKey(facts: seq<Trades.TradeFact>): map<TradeKey, Trades.TradeFact> {
    if facts == [] then map[] else ByKey(facts[..|facts| - 1])[KeyOf(facts[|facts| - 1]) := facts[|facts| - 1]]
  }

  lemma {:induction false} ByKeyHolds(facts: seq<Trades.TradeFact>)
    requires Distinct(facts)
    ensures forall f :: f in facts ==> KeyOf(f) in ByKey(facts)
    ensures forall k :: k in ByKey(facts) ==> ByKey(facts)[k] in facts && KeyOf(ByKey(facts)[k]) == k
  {
    if facts != [] {
      ByKeyHolds(facts[..|facts| - 1]);
    }
  }

  /** Registers the trade facts; on a bad one, gives its place. */
  method RegisterTrades(facts: seq<Trades.TradeFact>, blocks: seq<Block>)
    returns (remaining: map<TradeKey, Trades.TradeFact>, bad: Option<nat>)
    ensures bad.None? <==> Registrable(facts, blocks)
    ensures bad.None? ==> remaining == ByKey(facts)
    ensures bad.Some? ==> bad.value < |facts| && Registrable(facts[..bad.value], blocks)
                          && !Registrable(facts[..bad.value + 1], blocks)
  {
    hide Registrable, ByKey, Located, KeyOf, WordSpan;
    remaining, bad := map[], None;
    NothingRegistered(blocks);
    assert facts[..0] == [];
    for n := 0 to |facts|
      invariant Registrable(facts[..n], blocks) && remaining == ByKey(facts[..n])
    {
      assert facts[..n + 1] == facts[..n] + [facts[n]];
      RegisterOne(facts[..n], facts[n], blocks);
      if !Located(facts[n], blocks) || KeyOf(facts[n]) in remaining {
        NotRegistrable(facts, n + 1, blocks);
        bad := Some(n);
        return;
      }
      remaining := remaining[KeyOf(facts[n]) := facts[n]];
    }
    assert facts[..|facts|] == facts;
  }

  lemma NothingRegistered(blocks: seq<Block>)
    ensures Registrable([], blocks) && ByKey([]) == map[]
  {
  }

  lemma RegisterOne(facts: seq<Trades.TradeFact>, next: Trades.TradeFact, blocks: seq<Block>)
    requires Registrable(facts, blocks)
    ensures Registrable(facts + [next], blocks) <==> Located(next, blocks) && KeyOf(next) !in ByKey(facts)
    ensures ByKey(facts + [next]) == ByKey(facts)[KeyOf(next) := next]
  {
    assert (facts + [next])[..|facts|] == facts;
    assert ByKey(facts + [next]) == ByKey(facts)[KeyOf(next) := next];
    hide Located, ByKey, Distinct, KeyOf;
    DistinctOne(facts, next);
    assert forall f :: f in facts + [next] <==> f in facts || f == next;
  }

  lemma DistinctOne(facts: seq<Trades.TradeFact>, next: Trades.TradeFact)
    requires Distinct(facts)
    ensures Distinct(facts + [next]) <==> KeyOf(next) !in ByKey(facts)
  {
    hide ByKey, KeyOf;
    var more := facts + [next];
    ByKeyHolds(facts);
    if KeyOf(next) in ByKey(facts) {
      var j :| 0 <= j < |facts| && facts[j] == ByKey(facts)[KeyOf(next)];
      assert KeyOf(more[j]) == KeyOf(more[|facts|]);
    } else {
      forall i, j | 0 <= i < j < |more|
        ensures KeyOf(more[i]) != KeyOf(more[j])
      {
        if j == |facts| { assert facts[i] in facts; }
      }
    }
  }

  lemma NotRegistrable(facts: seq<Trades.TradeFact>, n: nat, blocks: seq<Block>)
    requires n <= |facts| && !Registrable(facts[..n], blocks)
    ensures !Registrable(facts, blocks)
  {
    hide Located;
    if Registrable(facts, blocks) {
      assert forall f :: f in facts[..n] ==> f in facts;
    }
  }

  // ----- the interval

  ghost function Start(s: Setup, facts: seq<Trades.TradeFact>): State {
    State(s.opening, NOTHING, [], [], ByKey(facts))
  }

  /** The replay through the first k blocks and their boundaries. */
  ghost function Through(start: State, blocks: seq<Block>, points: seq<Point>, s: Setup, k: nat): Progress
    requires k <= |blocks| == |points|
  {
    if k == 0 then
      Going(start)
    else
      var before := Through(start, blocks, points, s, k - 1);
      if before.Stopped? then before else BlockResult(before.state, blocks[k - 1], points[k - 1], s)
  }

  ghost function BlockResult(state: State, block: Block, point: Point, s: Setup): Progress {
    var visited := VisitAll(state, block, s, |block.transactions|);
    if visited.Stopped? then visited else Boundary(visited.state, block, point, s)
  }

  /** What is checked at the end. The program also looks for trade facts that were not met;
      AllTradesMet shows that there are none. */
  function Closing(state: State, through: U64): Status {
    if state.pending != [] then Unavailable(through, None, SourceSettlementMismatch)
    else if state.module_ != NOTHING then Unavailable(through, None, ModuleNotEmpty)
    else Matched(state.operations)
  }

  ghost function Interval(blocks: seq<Block>, points: seq<Point>, s: Setup, facts: seq<Trades.TradeFact>,
                          through: U64): Status
    requires |blocks| == |points|
  {
    var end := Through(Start(s, facts), blocks, points, s, |blocks|);
    if end.Stopped? then end.status else Closing(end.state, through)
  }
}
