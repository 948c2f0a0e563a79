/** The loops of the module replay, and what its redemptions pay. */
module ModuleReplay {
  import opened Arithmetic
  import opened Words
  import opened Receipts
  import opened ModuleCalls
  import opened ModuleOperations
  import opened ModuleLaws
  import Trades

  lemma {:induction false} VisitAllStaysStopped(state: State, block: Block, s: Setup, n: nat)
    requires n <= |block.transactions| && VisitAll(state, block, s, n).Stopped?
    ensures VisitAll(state, block, s, |block.transactions|) == VisitAll(state, block, s, n)
    decreases |block.transactions| - n
  {
    hide Visit;
    if n < |block.transactions| {
      VisitAllStaysStopped(state, block, s, n + 1);
    }
  }

  method VisitBlock(state: State, block: Block, s: Setup) returns (r: Progress)
    ensures r == VisitAll(state, block, s, |block.transactions|)
  {
    hide Visit;
    var current := state;
    for n := 0 to |block.transactions|
      invariant VisitAll(state, block, s, n) == Going(current)
    {
      r := Visit(current, block, block.transactions[n], s);
      if r.Stopped? {
        VisitAllStaysStopped(state, block, s, n + 1);
        return;
      }
      current := r.state;
    }
    r := Going(current);
  }

  lemma {:induction false} ThroughStaysStopped(start: State, blocks: seq<Block>, points: seq<Point>, s: Setup, k: nat)
    requires k <= |blocks| == |points| && Through(start, blocks, points, s, k).Stopped?
    ensures Through(start, blocks, points, s, |blocks|) == Through(start, blocks, points, s, k)
    decreases |blocks| - k
  {
    hide BlockResult;
    if k < |blocks| {
      ThroughStaysStopped(start, blocks, points, s, k + 1);
    }
  }

  method ReplayBlocks(start: State, blocks: seq<Block>, points: seq<Point>, s: Setup) returns (r: Progress)
    requires |blocks| == |points|
    ensures r == Through(start, blocks, points, s, |blocks|)
  {
    hide VisitAll, Boundary;
    var current := start;
    for k := 0 to |blocks|
      invariant Through(start, blocks, points, s, k) == Going(current)
    {
      r := VisitBlock(current, blocks[k], s);
      if r.Going? { r := Boundary(r.state, blocks[k], points[k], s); }
      assert r == BlockResult(current, blocks[k], points[k], s);
      if r.Stopped? {
        ThroughStaysStopped(start, blocks, points, s, k + 1);
        return;
      }
      current := r.state;
    }
    r := Going(current);
  }

  /** A fact that is not in the evidence, or comes twice, refuses the interval by its own names. */
  ghost predicate RefusedFact(status: Status, facts: seq<Trades.TradeFact>, blocks: seq<Block>, n: nat)
    requires n < |facts|
  {
    && Registrable(facts[..n], blocks) && !Registrable(facts[..n + 1], blocks)
    && status == Unavailable(facts[n].blockNumber, Some(facts[n].transactionHash), SourceSettlementMismatch)
  }

  method ClassifyModuleInterval(blocks: seq<Block>, points: seq<Point>, s: Setup, facts: seq<Trades.TradeFact>,
                                through: U64) returns (status: Status)
    ensures |points| != |blocks| ==> status == Unverified
    ensures |points| == |blocks| && Registrable(facts, blocks) ==> status == Interval(blocks, points, s, facts, through)
    ensures |points| == |blocks| && !Registrable(facts, blocks) ==>
      exists n :: 0 <= n < |facts| && RefusedFact(status, facts, blocks, n)
  {
    hide Registrable, Through, ByKey;
    if |points| != |blocks| { return Unverified; }
    var remaining, bad := RegisterTrades(facts, blocks);
    if bad.Some? {
      var fact := facts[bad.value];
      status := Unavailable(fact.blockNumber, Some(fact.transactionHash), SourceSettlementMismatch);
      assert RefusedFact(status, facts, blocks, bad.value);
      return;
    }
    var end := ReplayBlocks(State(s.opening, NOTHING, [], [], remaining), blocks, points, s);
    if end.Stopped? { return end.status; }
    AllTradesMet(blocks, points, s, facts);
    // Left-over trade facts would be refused here, after pending funding; there are none.
    status := Closing(end.state, through);
  }

  // ----- what a redemption pays

  /** A redemption through stored results pays at most the amount, and exactly the floor of the
      amount at its outcome's share. */
  lemma PayoutIsFloor(call: ModuleCall, s: Setup)
    requires Payout(call, s).Right? && call.Redeem?
    ensures var share := if call.id == s.IdA() then s.numerators.value.0 else s.numerators.value.1;
      var paid := Payout(call, s).value;
      paid.Some? && paid.value * 1_000_000 <= call.amount * share < (paid.value + 1) * 1_000_000
      && paid.value <= call.amount
  {
    hide WordSpan;
    ShareIsFloor(call.amount, if call.id == s.IdA() then s.numerators.value.0 else s.numerators.value.1);
  }

  lemma ShareIsFloor(amount: nat, share: nat)
    requires share <= 1_000_000
    ensures var paid := amount * share / 1_000_000;
      paid * 1_000_000 <= amount * share < (paid + 1) * 1_000_000 && paid <= amount
  {
    FloorBounds(amount * share, 1_000_000);
    Scale(share, 1_000_000, amount);
  }
}
