/** Which transactions the replay of the module accepts, and the state that each leaves. */
module ModuleAcceptance {
  import opened Words
  import opened Ledger
  import opened Receipts
  import opened ModuleCalls
  import opened ModuleOperations
  import opened ModuleLaws
  import CallSettlement
  import Inventory
  import Trades

  // ----- receipts, log by log

  function Handed(from: Address, to: Address, operator: Address, id: U256, amount: U256): Log {
    Moved(Single(PositionManager, operator, from, to, id, amount))
  }

  /** The logs of an operation, with what it pays. */
  function Receipt(call: ModuleCall, payout: U256, s: Setup): seq<Log> {
    var m, o, c := s.Module(), s.owner, s.condition;
    match call
    case Split(amount) =>
      [Handed(0, o, m, s.IdA(), amount), Handed(0, o, m, s.IdB(), amount), Moved(Cash(Pusd, m, 0, amount)),
       Noted(PositionsSplit(m, o, c, o, o, amount))]
    case Merge(amount) =>
      [Moved(Cash(Pusd, 0, o, amount)), Handed(m, 0, m, s.IdA(), amount), Handed(m, 0, m, s.IdB(), amount),
       Noted(PositionsMerged(m, o, c, o, amount))]
    case Redeem(id, amount) =>
      [Moved(Cash(Pusd, 0, o, payout)), Handed(m, 0, m, id, amount),
       Noted(PositionRedeemed(m, o, id, o, amount, payout))]
  }

  function FundingReceipt(call: FundingCall, s: Setup): seq<Log> {
    match call
    case FundPusd(amount) => [Moved(Cash(Pusd, s.owner, s.Module(), amount))]
    case FundPosition(id, amount) => [Handed(s.owner, s.Module(), s.owner, id, amount)]
  }

  ghost predicate IsSent(tx: Transaction, s: Setup) {
    tx.succeeded && tx.recoveredFrom == Some(s.owner) && tx.value == 0 && tx.replayProtected
  }

  // ----- trades

  ghost predicate CanTrade(b: Balances, flows: CallSettlement.Flows) {
    && b.a + flows.inA < WordSpan() && flows.outA <= b.a + flows.inA
    && b.b + flows.inB < WordSpan() && flows.outB <= b.b + flows.inB
    && b.cash + flows.cashIn < WordSpan() && flows.cashOut <= b.cash + flows.cashIn
  }

  /** A registered trade passes exactly when the owner's balances can take its flows. */
  lemma TradeIsAccepted(state: State, block: Block, tx: Transaction, s: Setup)
    requires (block.number, tx.index) in state.remaining
    ensures var key := (block.number, tx.index);
      var b, flows := state.owner, state.remaining[key].flows;
      && (Visit(state, block, tx, s).Going? <==> CanTrade(b, flows))
      && (CanTrade(b, flows) ==>
            Visit(state, block, tx, s)
            == Going(state.(owner := Balances(b.a + flows.inA - flows.outA, b.b + flows.inB - flows.outB,
                                              b.cash + flows.cashIn - flows.cashOut),
                            remaining := state.remaining - {key})))
  {
    hide WordSpan, CallOf, FundingOf;
  }

  // ----- funding

  function Amount(b: Balances, call: FundingCall, s: Setup): U256 {
    match call
    case FundPusd(_) => b.cash
    case FundPosition(id, _) => if id == s.IdA() then b.a else b.b
  }

  function Plus(b: Balances, call: FundingCall, n: int, s: Setup): Balances
    requires 0 <= Amount(b, call, s) + n < WordSpan()
  {
    match call
    case FundPusd(_) => b.(cash := b.cash + n)
    case FundPosition(id, _) => if id == s.IdA() then b.(a := b.a + n) else b.(b := b.b + n)
  }

  ghost predicate CanFund(state: State, call: FundingCall, s: Setup) {
    call.amount <= Amount(state.owner, call, s) && Amount(state.module_, call, s) + call.amount < WordSpan()
  }

  /** The funding that becomes pending. */
  ghost predicate IsPending(f: Funding, block: Block, tx: Transaction, call: FundingCall, s: Setup) {
    && f.locator == LocatorOf(block, tx) && f.amount == call.amount
    && match call
       case FundPusd(_) => f.asset == Inventory.PusdCash && f.positionId == None
       case FundPosition(id, _) =>
         && f.asset == (if id == s.IdA() then Inventory.PositionA else Inventory.PositionB)
         && f.positionId == Some(id)
  }

  /** A transfer to the module passes exactly when the owner sent it, holds it and it left its log;
      it is then pending. */
  lemma FundingIsAccepted(state: State, block: Block, tx: Transaction, call: FundingCall, s: Setup)
    requires (block.number, tx.index) !in state.remaining && tx.to != Some(s.Module())
    requires FundingOf(tx, s) == Some(call)
    ensures Visit(state, block, tx, s).Going? <==>
      IsSent(tx, s) && tx.logs == FundingReceipt(call, s) && CanFund(state, call, s)
    ensures Visit(state, block, tx, s).Going? ==>
      var next := Visit(state, block, tx, s).state;
      && |next.pending| == |state.pending| + 1 && IsPending(next.pending[|state.pending|], block, tx, call, s)
      && next == state.(owner := Plus(state.owner, call, 0 - call.amount, s),
                        module_ := Plus(state.module_, call, call.amount, s),
                        pending := state.pending + [next.pending[|state.pending|]])
  {
    var fact := FundingFact(block, tx, s, call);
    FundingIsApplied(state, call, fact, s);
    assert IsPending(fact, block, tx, call, s);
    hide WordSpan, CallOf, FundingOf, HasRelevantMovement, ApplyFunding, CanFund, Plus, IsPending;
  }

  lemma FundingIsApplied(state: State, call: FundingCall, fact: Funding, s: Setup)
    requires fact.asset == FundedAsset(call, s)
    ensures ApplyFunding(state, call, fact).Some? <==> CanFund(state, call, s)
    ensures CanFund(state, call, s) ==>
      ApplyFunding(state, call, fact).value
      == state.(owner := Plus(state.owner, call, 0 - call.amount, s),
                module_ := Plus(state.module_, call, call.amount, s), pending := state.pending + [fact])
  {
    hide WordSpan;
  }

  // ----- operations

  /** What a redemption pays for its outcome out of a million. */
  ghost predicate Pays(payout: U256, call: ModuleCall, s: Setup) {
    if call.Redeem? then
      && s.resultLength == 2 && s.numerators.Some?
      && var (first, second) := s.numerators.value;
         var share := if call.id == s.IdA() then first else second;
         && first + second == 1_000_000 && call.amount * share < WordSpan()
         && payout == call.amount * share / 1_000_000
    else
      payout == 0
  }

  /** The pending transfers are exactly what the call uses. */
  ghost predicate IsFunded(pending: seq<Funding>, call: ModuleCall) {
    pending != []
    && match call
       case Split(amount) =>
         (forall f :: f in pending ==> f.asset == Inventory.PusdCash) && PendingTotal(pending, None) == amount
       case Merge(amount) =>
         && (forall f :: f in pending ==> f.asset != Inventory.PusdCash)
         && PendingOf(pending, Inventory.PositionA) == amount && PendingOf(pending, Inventory.PositionB) == amount
       case Redeem(id, amount) =>
         (forall f :: f in pending ==> f.positionId == Some(id)) && PendingTotal(pending, None) == amount
  }

  /** Whether owner and module can take the amounts. */
  ghost predicate CanMove(owner: Balances, m: Balances, call: ModuleCall, payout: U256, s: Setup) {
    match call
    case Split(n) => owner.a + n < WordSpan() && owner.b + n < WordSpan() && n <= m.cash
    case Merge(n) => owner.cash + n < WordSpan() && n <= m.a && n <= m.b
    case Redeem(id, n) => owner.cash + payout < WordSpan() && n <= if id == s.IdA() then m.a else m.b
  }

  ghost function OwnerAfter(b: Balances, call: ModuleCall, payout: U256, s: Setup): Balances
    requires exists m :: CanMove(b, m, call, payout, s)
  {
    match call
    case Split(n) => Balances(b.a + n, b.b + n, b.cash)
    case Merge(n) => b.(cash := b.cash + n)
    case Redeem(_, _) => b.(cash := b.cash + payout)
  }

  ghost function ModuleAfter(b: Balances, call: ModuleCall, payout: U256, s: Setup): Balances
    requires exists owner :: CanMove(owner, b, call, payout, s)
  {
    match call
    case Split(n) => b.(cash := b.cash - n)
    case Merge(n) => Balances(b.a - n, b.b - n, b.cash)
    case Redeem(id, n) => if id == s.IdA() then b.(a := b.a - n) else b.(b := b.b - n)
  }

  lemma PayoutIsPaid(call: ModuleCall, payout: U256, s: Setup)
    ensures Payout(call, s) == Right(if call.Redeem? then Some(payout) else None) && (!call.Redeem? ==> payout == 0)
      <==> Pays(payout, call, s)
  {
    hide WordSpan;
  }

  lemma FundedIsMatched(pending: seq<Funding>, call: ModuleCall)
    ensures PendingMatches(pending, call) <==> IsFunded(pending, call)
  {
    hide WordSpan, PendingTotal, PendingAmount;
    PendingAmountIsTotal(pending, None);
    PendingAmountIsTotal(pending, Some(Inventory.PositionA));
    PendingAmountIsTotal(pending, Some(Inventory.PositionB));
  }

  lemma MoveIsApplied(state: State, op: Operation, payout: U256, s: Setup)
    requires op.inflows == Inflows(op.call, op.payout) && op.payout == if op.call.Redeem? then Some(payout) else None
    ensures ApplyOperation(state, op, s).Some? <==> CanMove(state.owner, state.module_, op.call, payout, s)
    ensures CanMove(state.owner, state.module_, op.call, payout, s) ==>
      ApplyOperation(state, op, s).value
      == state.(owner := OwnerAfter(state.owner, op.call, payout, s),
                module_ := ModuleAfter(state.module_, op.call, payout, s),
                pending := [], operations := state.operations + [op])
  {
    hide WordSpan;
  }

  ghost predicate CanOperate(state: State, tx: Transaction, call: ModuleCall, payout: U256, s: Setup) {
    && IsSent(tx, s) && IsFunded(state.pending, call) && Pays(payout, call, s) && tx.logs == Receipt(call, payout, s)
    && CanMove(state.owner, state.module_, call, payout, s)
  }

  /** The operation that is reported. */
  ghost predicate IsReported(op: Operation, state: State, block: Block, tx: Transaction, call: ModuleCall, payout: U256,
                             s: Setup) {
    && op.call == call && op.payout == (if call.Redeem? then Some(payout) else None)
    && op.fundings == state.pending && op.locator == LocatorOf(block, tx)
    && op.inflows == (match call
                      case Split(n) => Balances(n, n, 0)
                      case Merge(n) => Balances(0, 0, n)
                      case Redeem(_, _) => Balances(0, 0, payout))
    && op.outflows == (match call
                       case Split(n) => Balances(0, 0, n)
                       case Merge(n) => Balances(n, n, 0)
                       case Redeem(id, n) => if id == s.IdB() then Balances(0, n, 0) else Balances(n, 0, 0))
  }

  lemma OperationPasses(state: State, block: Block, tx: Transaction, call: ModuleCall, payout: U256, s: Setup)
    requires (block.number, tx.index) !in state.remaining && FundingOf(tx, s) == None && CallOf(tx, s) == Some(call)
    requires CanOperate(state, tx, call, payout, s)
    ensures Visit(state, block, tx, s).Going?
    ensures var next := Visit(state, block, tx, s).state;
      && |next.operations| == |state.operations| + 1
      && IsReported(next.operations[|state.operations|], state, block, tx, call, payout, s)
      && next == state.(owner := OwnerAfter(state.owner, call, payout, s),
                        module_ := ModuleAfter(state.module_, call, payout, s), pending := [],
                        operations := state.operations + [next.operations[|state.operations|]])
  {
    PayoutIsPaid(call, payout, s);
    FundedIsMatched(state.pending, call);
    var paid := if call.Redeem? then Some(payout) else None;
    var op := Operation(call, paid, Inflows(call, paid), Outflows(call, s), state.pending, LocatorOf(block, tx));
    MoveIsApplied(state, op, payout, s);
    assert IsReported(op, state, block, tx, call, payout, s);
    assert tx.logs == OperationLogs(call, paid, s);
    hide WordSpan, CallOf, FundingOf, HasRelevantMovement, PendingMatches, IsFunded, ApplyOperation, CanMove, Pays;
    hide Payout, OperationLogs, Receipt, OwnerAfter, ModuleAfter, IsReported, Inflows, Outflows;
  }

  lemma PassedOperates(state: State, block: Block, tx: Transaction, call: ModuleCall, s: Setup) returns (payout: U256)
    requires (block.number, tx.index) !in state.remaining && FundingOf(tx, s) == None && CallOf(tx, s) == Some(call)
    requires Visit(state, block, tx, s).Going?
    ensures CanOperate(state, tx, call, payout, s)
  {
    assert tx.to == Some(s.Module());
    hide WordSpan, CallOf, FundingOf, HasRelevantMovement, PendingMatches, IsFunded, ApplyOperation, CanMove, Pays;
    var paid := Payout(call, s).value;
    payout := paid.GetOr(0);
    PayoutIsPaid(call, payout, s);
    FundedIsMatched(state.pending, call);
    var op := Operation(call, paid, Inflows(call, paid), Outflows(call, s), state.pending, LocatorOf(block, tx));
    MoveIsApplied(state, op, payout, s);
  }

  /** A call of the module passes exactly when the owner sent it, the pending transfers are what it
      uses, its payout is known, and it left its logs. */
  lemma OperationIsAccepted(state: State, block: Block, tx: Transaction, call: ModuleCall, s: Setup)
    requires (block.number, tx.index) !in state.remaining && FundingOf(tx, s) == None && CallOf(tx, s) == Some(call)
    ensures Visit(state, block, tx, s).Going? <==> exists payout :: CanOperate(state, tx, call, payout, s)
  {
    hide Visit, CanOperate, CallOf, FundingOf;
    if Visit(state, block, tx, s).Going? {
      var payout := PassedOperates(state, block, tx, call, s);
    }
    forall payout | CanOperate(state, tx, call, payout, s)
      ensures Visit(state, block, tx, s).Going?
    {
      OperationPasses(state, block, tx, call, payout, s);
    }
  }

  // ----- other transactions

  /** Neither owner nor module has a part in the log, and it can be read. */
  ghost predicate IsForeign(log: Log, s: Setup) {
    match log
    case Moved(Undecodable(emitter)) => emitter != FromToken(Pusd) && emitter != FromBook(PositionManager)
    case Moved(m) => m.from != s.owner && m.to != s.owner && m.from != s.Module() && m.to != s.Module()
    case Noted(_) => true
  }

  /** Any transaction of others passes with nothing changed, failed or not. */
  lemma StrangersPass(state: State, block: Block, tx: Transaction, s: Setup)
    requires (block.number, tx.index) !in state.remaining && tx.to != Some(s.Module()) && FundingOf(tx, s) == None
    requires forall log :: log in tx.logs ==> IsForeign(log, s)
    ensures Visit(state, block, tx, s) == Going(state)
  {
    hide WordSpan, FundingOf;
  }

  ghost predicate IsSelected(asset: Asset, s: Setup) {
    asset in {Position(PositionManager, s.IdA()), Position(PositionManager, s.IdB()), Fungible(Pusd)}
  }

  /** What else passes: nothing but a transaction to another target whose logs move nothing of
      owner and module. */
  lemma OthersAreAside(state: State, block: Block, tx: Transaction, s: Setup)
    requires (block.number, tx.index) !in state.remaining && FundingOf(tx, s) == None && CallOf(tx, s) == None
    requires Visit(state, block, tx, s).Going?
    ensures Visit(state, block, tx, s).state == state && tx.to != Some(s.Module())
    ensures forall asset :: IsSelected(asset, s) ==>
              Net(tx.logs, s.owner, asset) == 0 && Net(tx.logs, s.Module(), asset) == 0
  {
    hide WordSpan, FundingOf, CallOf, Net, Trades.HasOwnerActivity;
    forall asset | IsSelected(asset, s)
      ensures Net(tx.logs, s.owner, asset) == 0 && Net(tx.logs, s.Module(), asset) == 0
    {
      Trades.InactiveIsStill(tx.logs, s.owner, s.desk.venue, asset);
      Trades.InactiveIsStill(tx.logs, s.Module(), s.desk.venue, asset);
    }
  }

  // ----- boundaries

  /** A boundary lets the replay go on exactly when the result continues, no control has changed,
      the module may still mint with the roles it had, and all six balances agree. */
  lemma BoundaryIsAccepted(state: State, block: Block, point: Point, s: Setup)
    ensures Boundary(state, block, point, s)
      == Going(state)
      <==> point.resultContinues && !point.controlsChanged && point.roles % 2 == 1 && point.roles == s.roles
           && state.owner == block.authenticated && state.module_ == point.module_
    ensures Boundary(state, block, point, s).Going? ==> Boundary(state, block, point, s) == Going(state)
  {
    hide WordSpan, Compare;
  }

  /** A mismatch names a balance that differs, as it is in evidence and as it was replayed, and the
      assets before it agree. */
  lemma MismatchIsReal(state: State, block: Block, point: Point)
    requires Compare(state, block, point).Some?
    ensures var r := Compare(state, block, point).value;
      && r.Mismatch? && r.blockNumber == block.number && r.authenticated != r.reconstructed
      && r.authenticated == Inventory.Get(if r.holder.Owner? then block.authenticated else point.module_, r.asset)
      && r.reconstructed == Inventory.Get(if r.holder.Owner? then state.owner else state.module_, r.asset)
      && (r.holder.Module? ==> Inventory.Get(block.authenticated, r.asset) == Inventory.Get(state.owner, r.asset))
      && (!r.asset.PositionA? ==> block.authenticated.a == state.owner.a && point.module_.a == state.module_.a)
      && (r.asset.PusdCash? ==> block.authenticated.b == state.owner.b && point.module_.b == state.module_.b)
  {
  }
}
