/** Which transactions of an interval are quiet for an owner, and which become facts. */
module TradeAcceptance {
  import opened Words
  import opened Ledger
  import opened MatchCall
  import opened Receipts
  import opened Trades
  import CallSettlement
  import MatchCodec
  import MatchTheorems
  import NativeScan
  import Settlement
  import SettlementLaws

  /** A log in which the owner has no part: a transfer between others or of something else, or an
      event of other parties. */
  ghost predicate IsForeign(log: Log, owner: Address, v: Settlement.Venue) {
    match log
    case Moved(Undecodable(emitter)) => emitter != FromToken(Pusd) && emitter != FromBook(PositionManager)
    case Moved(Cash(token, from, to, _)) => token == Usdce || (from != owner && to != owner)
    case Moved(Single(book, _, from, to, id, _)) =>
      book == ConditionalTokens || (id != v.idA && id != v.idB) || (from != owner && to != owner)
    case Moved(Batch(book, _, from, to, ids, _)) =>
      book == ConditionalTokens || (v.idA !in ids && v.idB !in ids) || (from != owner && to != owner)
    case Noted(OrderFilled(_, maker, taker, _, _, _, _, _, _, _)) => maker != owner && taker != owner
    case Noted(FeeCharged(receiver, _)) => receiver != owner
    case Noted(OrdersMatched(_, takerMaker, _, _, _, _)) => takerMaker != owner
    case Noted(_) => true
  }

  /** An owner is inactive exactly when every log is foreign. */
  lemma ActivityIsAPart(tx: Transaction, owner: Address, v: Settlement.Venue)
    ensures IsActive(tx, owner, v) <==> exists log :: log in tx.logs && !IsForeign(log, owner, v)
  {
    forall log: Log
      ensures IsForeign(log, owner, v) <==>
        if log.Moved? then !MovementMentions(log.movement, owner, v) else !EventMentions(log.event, owner)
    {
    }
    hide IsForeign, MovementMentions, EventMentions;
  }

  /** A transaction of others is quiet: one that failed, one to another target, or one that is no
      matchOrders call. */
  lemma StrangersAreQuiet(c: Classification, block: Block, tx: Transaction, owner: Address, desk: Desk,
                          hash: MatchOrder -> Hash)
    requires tx.Valid() && Classifies(c, block, tx, owner, desk, hash)
    requires !tx.succeeded || tx.to != Some(desk.venue.exchange) || !IsMatchOrders(tx)
    ensures c == Quiet <==> forall log :: log in tx.logs ==> IsForeign(log, owner, desk.venue)
  {
    hide IsForeign, IsActive;
    ActivityIsAPart(tx, owner, desk.venue);
  }

  ghost function OutcomeOf(call: MatchOrdersCall, v: Settlement.Venue, hash: MatchOrder -> Hash): Settlement.Built
    requires call.Aligned()
    requires SettlementLaws.Accepts(CallSettlement.MatchOf(call, v, hash), MatchTheorems.TheBranch(call))
  {
    SettlementLaws.Outcome(CallSettlement.MatchOf(call, v, hash), MatchTheorems.TheBranch(call))
  }

  /** A match that settles, sent to the Exchange with the call's encoding and with exactly the logs
      of its outcome, is a fact when the owner has a fill in it, and quiet when not even a log
      names the owner. */
  lemma SettledMatchIsClassified(c: Classification, block: Block, tx: Transaction, owner: Address, desk: Desk,
                                 call: MatchOrdersCall, hash: MatchOrder -> Hash)
    requires tx.Valid() && Classifies(c, block, tx, owner, desk, hash)
    requires tx.succeeded && tx.to == Some(desk.venue.exchange) && tx.replayProtected && tx.value == 0
    requires tx.recoveredFrom.Some? && MatchCodec.Encodable(call) && tx.input == Some(MatchCodec.EncodeCall(call))
    requires |MatchCodec.EncodeCall(call)| <= MatchCodec.MAX_CALLDATA_BYTES
    requires CallSettlement.Settles(call, owner, desk.venue, hash) && !desk.Unsupported(owner)
    requires tx.logs == OutcomeOf(call, desk.venue, hash).logs
    ensures var m := CallSettlement.MatchOf(call, desk.venue, hash);
      var fills := CallSettlement.OwnerFills(m, owner, OutcomeOf(call, desk.venue, hash));
      && (fills != [] ==>
            && c.Fact? && c.fact.fills == fills && c.fact.transactionHash == tx.hash
            && c.fact.blockNumber == block.number
            && CallSettlement.FlowsAre(c.fact.flows, tx.logs, owner, desk.venue))
      && (fills == [] && (forall log :: log in tx.logs ==> IsForeign(log, owner, desk.venue)) ==> c == Quiet)
  {
    MatchCodec.CallRoundTrip(MatchCodec.EncodeCall(call), call);
    ActivityIsAPart(tx, owner, desk.venue);
    hide IsForeign;
  }

  // ----- the scan

  /** An event that changes the rules, of the Exchange, the module or a token contract. */
  ghost predicate ChangesRules(log: Log, desk: Desk) {
    match log
    case Noted(Emitted(emitter, ControlChange, _)) =>
      emitter in {desk.venue.exchange, desk.venue.module_, desk.positionManager, desk.pusd}
    case _ => false
  }

  /** A scan stops at a change of the rules whatever else a transaction is, failed or not. */
  lemma RuleChangeStops(c: Classification, refusal: NativeScan.Refusal, block: Block, tx: Transaction, owner: Address,
                        desk: Desk, operations: bool, hash: MatchOrder -> Hash)
    requires tx.Valid() && exists log :: log in tx.logs && ChangesRules(log, desk)
    ensures !NativeScan.Passes(c, block, tx, owner, desk, operations, hash)
    ensures NativeScan.Stops(refusal, block, tx, owner, desk, operations, hash)
      <==> refusal == NativeScan.ControlTransition
  {
    var log :| log in tx.logs && ChangesRules(log, desk);
    assert NativeScan.HasControlEvent(tx.logs, desk);
    hide Classifies, NativeScan.HasControlEvent;
  }

  /** Without such a change it passes what is sent to the module or to a token contract, when
      operations are allowed, and every transaction of others to another target than the Exchange. */
  lemma AsideIsPassed(c: Classification, refusal: NativeScan.Refusal, block: Block, tx: Transaction, owner: Address,
                      desk: Desk, operations: bool, hash: MatchOrder -> Hash)
    requires tx.Valid() && tx.to != Some(desk.venue.exchange)
    requires forall log :: log in tx.logs ==> !ChangesRules(log, desk)
    requires || (operations && tx.to in {Some(desk.venue.module_), Some(desk.positionManager), Some(desk.pusd)})
             || (forall log :: log in tx.logs ==> IsForeign(log, owner, desk.venue))
    ensures NativeScan.Passes(c, block, tx, owner, desk, operations, hash) <==> c == Quiet
    ensures !NativeScan.Stops(refusal, block, tx, owner, desk, operations, hash)
  {
    assert !NativeScan.HasControlEvent(tx.logs, desk);
    ActivityIsAPart(tx, owner, desk.venue);
    hide IsForeign, ChangesRules, NativeScan.HasControlEvent, IsActive;
  }

  /** It stops at another call of the Exchange. */
  lemma OtherCallStops(c: Classification, refusal: NativeScan.Refusal, block: Block, tx: Transaction, owner: Address,
                       desk: Desk, hash: MatchOrder -> Hash)
    requires tx.Valid() && tx.to == Some(desk.venue.exchange) && !IsMatchOrders(tx)
    requires forall log :: log in tx.logs ==> !ChangesRules(log, desk)
    ensures !NativeScan.Passes(c, block, tx, owner, desk, false, hash)
    ensures NativeScan.Stops(refusal, block, tx, owner, desk, false, hash)
      <==> refusal == NativeScan.OfTrade(UnsupportedDirectCall)
  {
    assert !NativeScan.HasControlEvent(tx.logs, desk);
    hide ChangesRules, NativeScan.HasControlEvent, IsActive;
  }
}
