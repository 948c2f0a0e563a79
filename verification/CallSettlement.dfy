/** From a decoded call to a settlement: validation, the choice of branch, the check that the
    Exchange keeps nothing, the fee caps, and the flows and fills of one owner. */
module CallSettlement {
  import opened Arithmetic
  import opened Words
  import opened Ledger
  import opened MatchCall
  import opened Settlement
  import opened SettlementLaws

  datatype Role = MakerRole | TakerRole

  /** One fill of the owner. The log index is bound later, from the receipt. */
  datatype Fill = Fill(hash: Hash, order: MatchOrder, making: U256, taking: U256, fee: U256, role: Role)

  /** What an account receives and sends, per asset. */
  datatype Flows = Flows(inA: U256, outA: U256, inB: U256, outB: U256, cashIn: U256, cashOut: U256)

  const NO_FLOWS := Flows(0, 0, 0, 0, 0, 0)

  datatype SettledMatch = SettledMatch(
    branch: Branch, logs: seq<Log>, flows: Flows, ownerFee: U256, refund: U256, fills: seq<Fill>, participates: bool)

  // ----- flows of one account

  /** The logs that a builder emits: pUSD payments, transfers of the two positions, events. */
  predicate Expected(v: Venue, log: Log) {
    match log
    case Moved(Cash(token, _, _, _)) => token == Pusd
    case Moved(Single(book, _, _, _, id, _)) => book == PositionManager && v.Lists(id)
    case Moved(_) => false
    case Noted(_) => true
  }

  ghost predicate AllExpected(v: Venue, logs: seq<Log>) { forall log :: log in logs ==> Expected(v, log) }

  function PositionA(v: Venue): Asset { Position(PositionManager, v.idA) }
  function PositionB(v: Venue): Asset { Position(PositionManager, v.idB) }
  function PusdCash(): Asset { Fungible(Pusd) }

  ghost predicate FlowFits(logs: seq<Log>, who: Address, asset: Asset) {
    Fits(Total(logs, Inflow(who, asset))) && Fits(Total(logs, Outflow(who, asset)))
  }

  ghost predicate FlowsFit(logs: seq<Log>, who: Address, v: Venue) {
    FlowFits(logs, who, PositionA(v)) && FlowFits(logs, who, PositionB(v)) && FlowFits(logs, who, PusdCash())
  }

  ghost predicate FlowsAre(f: Flows, logs: seq<Log>, who: Address, v: Venue) {
    && f.inA == Total(logs, Inflow(who, PositionA(v))) && f.outA == Total(logs, Outflow(who, PositionA(v)))
    && f.inB == Total(logs, Inflow(who, PositionB(v))) && f.outB == Total(logs, Outflow(who, PositionB(v)))
    && f.cashIn == Total(logs, Inflow(who, PusdCash())) && f.cashOut == Total(logs, Outflow(who, PusdCash()))
  }

  /** Adds one log to the flows of an account. */
  function AddFlow(f: Flows, log: Log, who: Address, v: Venue): Option<Flows> {
    match log
    case Moved(Single(PositionManager, _, from, to, id, amount)) =>
      if from == to then
        Some(f)
      else if id == v.idA then
        var inA :- CheckedAdd(f.inA, if to == who then amount else 0);
        var outA :- CheckedAdd(f.outA, if from == who then amount else 0);
        Some(f.(inA := inA, outA := outA))
      else if id == v.idB then
        var inB :- CheckedAdd(f.inB, if to == who then amount else 0);
        var outB :- CheckedAdd(f.outB, if from == who then amount else 0);
        Some(f.(inB := inB, outB := outB))
      else if to == who || from == who then
        None
      else
        Some(f)
    case Moved(Cash(Pusd, from, to, amount)) =>
      if from == to then
        Some(f)
      else
        var cashIn :- CheckedAdd(f.cashIn, if to == who then amount else 0);
        var cashOut :- CheckedAdd(f.cashOut, if from == who then amount else 0);
        Some(f.(cashIn := cashIn, cashOut := cashOut))
    case _ => Some(f)
  }

  lemma AddFlowFits(f: Flows, logs: seq<Log>, log: Log, who: Address, v: Venue)
    requires FlowsAre(f, logs, who, v) && Expected(v, log) && v.idA != v.idB
    ensures AddFlow(f, log, who, v).Some? <==> FlowsFit(logs + [log], who, v)
  {
    hide WordSpan, Total;
    OneMoreLog(logs, log, who, PositionA(v));
    OneMoreLog(logs, log, who, PositionB(v));
    OneMoreLog(logs, log, who, PusdCash());
  }

  lemma AddFlowAdds(f: Flows, logs: seq<Log>, log: Log, who: Address, v: Venue)
    requires FlowsAre(f, logs, who, v) && Expected(v, log) && v.idA != v.idB
    requires AddFlow(f, log, who, v).Some?
    ensures FlowsAre(AddFlow(f, log, who, v).value, logs + [log], who, v)
  {
    hide WordSpan, Total;
    OneMoreLog(logs, log, who, PositionA(v));
    OneMoreLog(logs, log, who, PositionB(v));
    OneMoreLog(logs, log, who, PusdCash());
  }

  lemma OneMoreLog(logs: seq<Log>, log: Log, who: Address, asset: Asset)
    ensures Total(logs + [log], Inflow(who, asset))
      == Total(logs, Inflow(who, asset)) + Read(log, Inflow(who, asset))
    ensures Total(logs + [log], Outflow(who, asset))
      == Total(logs, Outflow(who, asset)) + Read(log, Outflow(who, asset))
  {
    hide WordSpan, Total;
    TotalAppend(logs, log, Inflow(who, asset));
    TotalAppend(logs, log, Outflow(who, asset));
  }

  lemma FlowsFitPrefix(logs: seq<Log>, k: nat, who: Address, v: Venue)
    requires k <= |logs| && FlowsFit(logs, who, v)
    ensures FlowsFit(logs[..k], who, v)
  {
    TotalPrefix(logs, k, Inflow(who, PositionA(v)));
    TotalPrefix(logs, k, Outflow(who, PositionA(v)));
    TotalPrefix(logs, k, Inflow(who, PositionB(v)));
    TotalPrefix(logs, k, Outflow(who, PositionB(v)));
    TotalPrefix(logs, k, Inflow(who, PusdCash()));
    TotalPrefix(logs, k, Outflow(who, PusdCash()));
  }

  /** Sums the flows of an account over a list of logs; missing only when a sum overflows. */
  method AccountFlows(logs: seq<Log>, who: Address, v: Venue) returns (r: Option<Flows>)
    requires AllExpected(v, logs) && v.idA != v.idB
    ensures r.Some? <==> FlowsFit(logs, who, v)
    ensures r.Some? ==> FlowsAre(r.value, logs, who, v)
  {
    var flows := NO_FLOWS;
    assert logs[..0] == [];
    assert FlowsAre(flows, logs[..0], who, v);
    hide FlowsAre, FlowsFit, AddFlow;
    for i := 0 to |logs|
      invariant FlowsAre(flows, logs[..i], who, v)
      invariant i > 0 ==> FlowsFit(logs[..i], who, v)
    {
      assert logs[i] in logs;
      assert logs[..i + 1] == logs[..i] + [logs[i]];
      AddFlowFits(flows, logs[..i], logs[i], who, v);
      var next := AddFlow(flows, logs[i], who, v);
      if next.None? {
        if FlowsFit(logs, who, v) { FlowsFitPrefix(logs, i + 1, who, v); }
        return None;
      }
      AddFlowAdds(flows, logs[..i], logs[i], who, v);
      flows := next.value;
    }
    assert logs[..|logs|] == logs;
    NoLogsFit(who, v);
    r := Some(flows);
  }

  lemma NoLogsFit(who: Address, v: Venue)
    ensures FlowsFit([], who, v)
  {
  }

  /** True when the Exchange sends on exactly what it receives; missing on overflow. */
  method ExchangeNetIsZero(logs: seq<Log>, v: Venue) returns (r: Option<bool>)
    requires AllExpected(v, logs) && v.idA != v.idB
    ensures r.Some? <==> FlowsFit(logs, v.exchange, v)
    ensures r.Some? ==>
      (r.value <==> Net(logs, v.exchange, PositionA(v)) == 0 && Net(logs, v.exchange, PositionB(v)) == 0
                    && Net(logs, v.exchange, PusdCash()) == 0)
  {
    var flows :- AccountFlows(logs, v.exchange, v);
    r := Some(flows.inA == flows.outA && flows.inB == flows.outB && flows.cashIn == flows.cashOut);
  }

  // ----- from the call to the match

  predicate OrderUsable(order: MatchOrder, v: Venue) {
    && order.maker != ZERO_ADDRESS && order.makerAmount > 0 && order.takerAmount > 0
    && v.Lists(order.tokenId)
    && (order.signatureType == Eoa || order.signatureType == Poly1271 ==> order.maker == order.signer)
  }

  predicate FillUsable(order: MatchOrder, fill: U256) { 0 < fill <= order.makerAmount }

  ghost predicate CallUsable(call: MatchOrdersCall, v: Venue)
    requires call.Aligned()
  {
    && OrderUsable(call.takerOrder, v) && FillUsable(call.takerOrder, call.takerAmounts.fill)
    && forall i :: 0 <= i < |call.makerOrders| ==> MakerUsable(call, v, i)
  }

  ghost predicate MakerUsable(call: MatchOrdersCall, v: Venue, i: nat)
    requires call.Aligned() && i < |call.makerOrders|
  {
    var order, fill := call.makerOrders[i], call.makerFills[i];
    OrderUsable(order, v) && FillUsable(order, fill)
    && CheckedMulDiv(fill, order.takerAmount, order.makerAmount).Some?
  }

  /** The i-th maker order as it settles. */
  ghost function LegOf(call: MatchOrdersCall, hash: MatchOrder -> Hash, i: nat): Leg
    requires call.Aligned() && i < |call.makerOrders|
  {
    var order, fill := call.makerOrders[i], call.makerFills[i];
    Leg(order, hash(order), fill,
        CheckedMulDiv(fill, order.takerAmount, order.makerAmount).GetOr(0), call.makerFees[i])
  }

  ghost function MatchOf(call: MatchOrdersCall, v: Venue, hash: MatchOrder -> Hash): Match
    requires call.Aligned()
  {
    Match(v, call.takerOrder, hash(call.takerOrder), call.takerAmounts,
          seq(|call.makerOrders|, i requires 0 <= i < |call.makerOrders| => LegOf(call, hash, i)))
  }

  predicate IsComplementary(taker: MatchOrder, makers: seq<MatchOrder>) {
    forall order :: order in makers ==> order.side != taker.side && order.tokenId == taker.tokenId
  }

  function BranchFor(taker: MatchOrder, makers: seq<MatchOrder>): Branch {
    if IsComplementary(taker, makers) then NormalMatch else if taker.side == Buy then MintMatch else MergeMatch
  }

  method PrepareLegs(call: MatchOrdersCall, v: Venue, hash: MatchOrder -> Hash) returns (r: Option<seq<Leg>>)
    requires call.Aligned()
    ensures r.Some? <==> forall i :: 0 <= i < |call.makerOrders| ==> MakerUsable(call, v, i)
    ensures r.Some? ==> r.value == MatchOf(call, v, hash).legs
  {
    hide OrderUsable, FillUsable, CheckedMulDiv;
    var legs: seq<Leg> := [];
    for i := 0 to |call.makerOrders|
      invariant |legs| == i
      invariant forall j :: 0 <= j < i ==> MakerUsable(call, v, j) && legs[j] == LegOf(call, hash, j)
    {
      var order, fill := call.makerOrders[i], call.makerFills[i];
      assert MakerUsable(call, v, i) ==> OrderUsable(order, v) && FillUsable(order, fill);
      if !OrderUsable(order, v) || !FillUsable(order, fill) { return None; }
      var taking :- CheckedMulDiv(fill, order.takerAmount, order.makerAmount);
      legs := legs + [Leg(order, hash(order), fill, taking, call.makerFees[i])];
    }
    r := Some(legs);
  }

  // ----- the fee caps and the owner's fills

  function CashBasis(order: MatchOrder, making: U256, taking: U256): U256 {
    if order.side == Buy then making else taking
  }

  predicate LegCapped(leg: Leg) {
    FeeWithinCap(leg.fee, CashBasis(leg.order, leg.fill, leg.taking)) == Some(true)
  }

  /** The owner's fills among the first n legs, in order. */
  ghost function LegFills(m: Match, owner: Address, n: nat): seq<Fill>
    requires n <= |m.legs|
  {
    if n == 0 then
      []
    else
      LegFills(m, owner, n - 1) + OwnFill(m.legs[n - 1], owner)
  }

  ghost function OwnFill(leg: Leg, owner: Address): seq<Fill> {
    if leg.order.maker == owner then [Fill(leg.hash, leg.order, leg.fill, leg.taking, leg.fee, MakerRole)] else []
  }

  ghost function TakerFills(m: Match, owner: Address, making: nat, taking: nat): seq<Fill> {
    if m.taker.maker == owner then
      [Fill(m.takerHash, m.taker, Word(making), Word(taking), m.amounts.fee, TakerRole)]
    else
      []
  }

  ghost function FillFees(fills: seq<Fill>): nat {
    if fills == [] then 0 else FillFees(fills[..|fills| - 1]) + fills[|fills| - 1].fee
  }

  lemma FillFeesAppend(fills: seq<Fill>, own: seq<Fill>)
    requires |own| <= 1
    ensures FillFees(fills + own) == FillFees(fills) + if own == [] then 0 else own[0].fee
  {
    if own == [] {
      assert fills + own == fills;
    } else {
      assert (fills + own)[..|fills|] == fills;
    }
  }

  /** The owner never pays more than all fees together, so this sum cannot overflow. */
  lemma {:induction false} OwnerFeesAtMost(m: Match, owner: Address, first: seq<Fill>, n: nat)
    requires n <= |m.legs|
    ensures FillFees(first + LegFills(m, owner, n)) <= FillFees(first) + Fees(m.legs, n)
  {
    hide WordSpan, FillFees;
    if n == 0 {
      assert first + [] == first;
    } else {
      OwnerFeesAtMost(m, owner, first, n - 1);
      var own := OwnFill(m.legs[n - 1], owner);
      FillFeesAppend(first + LegFills(m, owner, n - 1), own);
      assert first + LegFills(m, owner, n) == first + LegFills(m, owner, n - 1) + own;
    }
  }

  // ----- the builders emit only what an account's flows can read

  ghost predicate ListedTokens(m: Match) {
    m.venue.Lists(m.taker.tokenId) && forall i :: 0 <= i < |m.legs| ==> m.venue.Lists(m.legs[i].order.tokenId)
  }

  lemma LegLogsExpected(m: Match, phase: Phase, leg: Leg)
    requires m.venue.Lists(m.taker.tokenId) && m.venue.Lists(leg.order.tokenId)
    ensures AllExpected(m.venue, LegLogs(m, phase, leg))
  {
    hide WordSpan, AnyFees, Word;
  }

  lemma {:induction false} PassExpected(m: Match, phase: Phase, n: nat)
    requires n <= |m.legs| && ListedTokens(m)
    ensures AllExpected(m.venue, Pass(m, phase, n))
  {
    hide WordSpan, LegLogs, Expected;
    if n > 0 {
      PassExpected(m, phase, n - 1);
      LegLogsExpected(m, phase, m.legs[n - 1]);
    }
  }

  lemma NormalClosingExpected(m: Match)
    ensures AllExpected(m.venue, NormalClosing(m))
  {
    hide WordSpan, AnyFees, Word, AllFills, AllFees;
  }

  lemma MintClosingExpected(m: Match, amount: nat)
    requires m.venue.Lists(m.taker.tokenId)
    ensures AllExpected(m.venue, MintLogs(m, amount)) && AllExpected(m.venue, MintClosing(m))
  {
    hide WordSpan, Word, MintRefund, AllFees, All;
  }

  lemma MergeClosingExpected(m: Match)
    requires m.venue.Lists(m.taker.tokenId)
    ensures AllExpected(m.venue, MergeLogs(m)) && AllExpected(m.venue, MergeClosing(m))
  {
    hide WordSpan, Word, MergeTaking, AllFees, All;
  }

  lemma ReceiptExpected(m: Match, making: nat, taking: nat)
    ensures AllExpected(m.venue, Receipt(m, making, taking))
  {
  }

  lemma OutcomeExpected(m: Match, branch: Branch)
    requires Accepts(m, branch) && ListedTokens(m)
    ensures AllExpected(m.venue, Outcome(m, branch).logs)
  {
    hide WordSpan, AnyFees, Word, LegLogs, Pass, NormalClosing, MintClosing, MergeClosing, MintLogs, MergeLogs;
    hide Receipt, IntakeOk, NormalLegOk, MintRefund, MergeTaking;
    var n, built := |m.legs|, Outcome(m, branch);
    PassExpected(m, NormalPass, n);
    PassExpected(m, MintIntake, n);
    PassExpected(m, MintPayout, n);
    PassExpected(m, MergeIntake, n);
    PassExpected(m, MergePayout, n);
    NormalClosingExpected(m);
    MintClosingExpected(m, All(m, BuyTaking));
    MergeClosingExpected(m);
    ReceiptExpected(m, built.making, built.taking);
  }

  // ----- the settlement of a call

  ghost predicate CapsHold(m: Match, built: Built) {
    && FeeWithinCap(m.amounts.fee, CashBasis(m.taker, Word(built.making), Word(built.taking))) == Some(true)
    && forall i :: 0 <= i < |m.legs| ==> LegCapped(m.legs[i])
  }

  ghost predicate ExchangeClears(m: Match, built: Built) {
    var v := m.venue;
    FlowsFit(built.logs, v.exchange, v)
    && Net(built.logs, v.exchange, PositionA(v)) == 0 && Net(built.logs, v.exchange, PositionB(v)) == 0
    && Net(built.logs, v.exchange, PusdCash()) == 0
  }

  ghost predicate Settles(call: MatchOrdersCall, owner: Address, v: Venue, hash: MatchOrder -> Hash)
    requires call.Aligned()
  {
    var m, branch := MatchOf(call, v, hash), BranchFor(call.takerOrder, call.makerOrders);
    && CallUsable(call, v)
    && Accepts(m, branch)
    && ExchangeClears(m, Outcome(m, branch))
    && CapsHold(m, Outcome(m, branch))
    && (OwnerFills(m, owner, Outcome(m, branch)) != [] ==> FlowsFit(Outcome(m, branch).logs, owner, v))
  }

  ghost function OwnerFills(m: Match, owner: Address, built: Built): seq<Fill> {
    TakerFills(m, owner, built.making, built.taking) + LegFills(m, owner, |m.legs|)
  }

  /** What a settlement says of a built match for one owner. */
  ghost predicate Describes(s: SettledMatch, m: Match, owner: Address, built: Built) {
    && s.branch == built.branch && s.logs == built.logs
    && s.fills == OwnerFills(m, owner, built) && s.ownerFee == FillFees(s.fills)
    && (s.participates <==> s.fills != [])
    && s.refund == (if m.taker.maker == owner then built.refund else 0)
    && (if s.participates then FlowsAre(s.flows, built.logs, owner, m.venue) else s.flows == NO_FLOWS)
  }

  method BuildBranch(m: Match, branch: Branch) returns (r: Option<Built>)
    requires branch.MintMatch? ==> m.taker.side == Buy
    requires branch.MergeMatch? ==> m.taker.side == Sell
    ensures r.Some? <==> Accepts(m, branch)
    ensures r.Some? ==> r.value == Outcome(m, branch)
  {
    hide NormalAccepts, MintAccepts, MergeAccepts, NormalOutcome, MintOutcome, MergeOutcome;
    match branch
    case NormalMatch => r := BuildNormal(m);
    case MintMatch => r := BuildMint(m);
    case MergeMatch => r := BuildMerge(m);
  }

  /** What the fee loop has gathered after n legs. */
  ghost predicate FillsSoFar(fills: seq<Fill>, fees: nat, m: Match, owner: Address, first: seq<Fill>, n: nat)
    requires n <= |m.legs|
  {
    fills == first + LegFills(m, owner, n) && fees == FillFees(fills)
  }

  /** The fee test of one leg, and the owner's fill of it. */
  method CheckLeg(fills: seq<Fill>, fees: U256, m: Match, owner: Address, ghost first: seq<Fill>, i: nat)
    returns (r: Option<(seq<Fill>, U256)>)
    requires i < |m.legs| && FillsSoFar(fills, fees, m, owner, first, i)
    requires Fits(FillFees(first) + AllFees(m))
    ensures r.Some? <==> LegCapped(m.legs[i])
    ensures r.Some? ==> FillsSoFar(r.value.0, r.value.1, m, owner, first, i + 1)
  {
    hide FeeWithinCap, WordSpan, FillFees, LegFills, FillsSoFar;
    var leg := m.legs[i];
    if LegCapped(leg) { CapCoversFee(leg.fee, CashBasis(leg.order, leg.fill, leg.taking)); }
    if !LegCapped(leg) || (leg.order.side == Sell && leg.fee > leg.taking) { return None; }
    NextFills(fills, fees, m, owner, first, i);
    if leg.order.maker == owner {
      var own := Fill(leg.hash, leg.order, leg.fill, leg.taking, leg.fee, MakerRole);
      r := Some((fills + [own], fees + leg.fee));
    } else {
      r := Some((fills, fees));
    }
  }

  method FillsAndFees(m: Match, owner: Address, built: Built) returns (r: Option<(seq<Fill>, U256)>)
    requires Fits(built.making) && Fits(built.taking) && Fits(m.amounts.fee + AllFees(m))
    ensures r.Some? <==> forall i :: 0 <= i < |m.legs| ==> LegCapped(m.legs[i])
    ensures r.Some? ==> r.value == (OwnerFills(m, owner, built), FillFees(OwnerFills(m, owner, built)))
  {
    hide FeeWithinCap, WordSpan, FillFees, LegFills, AllFees, LegCapped;
    ghost var first := TakerFills(m, owner, built.making, built.taking);
    var fills: seq<Fill>, fees: U256 := [], 0;
    if m.taker.maker == owner {
      fees := m.amounts.fee;
      fills := fills + [Fill(m.takerHash, m.taker, built.making, built.taking, m.amounts.fee, TakerRole)];
    }
    FeesOfOne(first);
    NoFillsYet(m, owner, first);
    assert FillsSoFar(fills, fees, m, owner, first, 0);
    hide FillsSoFar;
    for i := 0 to |m.legs|
      invariant FillsSoFar(fills, fees, m, owner, first, i)
      invariant forall j :: 0 <= j < i ==> LegCapped(m.legs[j])
    {
      var next :- CheckLeg(fills, fees, m, owner, first, i);
      fills, fees := next.0, next.1;
    }
    AllFillsSoFar(fills, fees, m, owner, first);
    r := Some((fills, fees));
  }

  lemma AllFillsSoFar(fills: seq<Fill>, fees: nat, m: Match, owner: Address, first: seq<Fill>)
    requires FillsSoFar(fills, fees, m, owner, first, |m.legs|)
    ensures fills == first + LegFills(m, owner, |m.legs|) && fees == FillFees(fills)
  {
  }

  /** A fee within the cap never exceeds the cash it is charged on, so the program's second test,
      that a seller's fee is at most the taking, can never fail on its own. */
  lemma CapCoversFee(fee: U256, cash: U256)
    requires FeeWithinCap(fee, cash) == Some(true)
    ensures 10 * fee <= cash
  {
    hide WordSpan;
    CapIsTenth(cash);
  }

  lemma CapIsTenth(cash: nat)
    ensures 10 * (cash * MAX_FEE_RATE_BPS / BPS) <= cash
  {
    FloorBounds(cash * 1_000, 10_000);
    assert cash * MAX_FEE_RATE_BPS / BPS == cash * 1_000 / 10_000;
  }

  lemma NoFillsYet(m: Match, owner: Address, first: seq<Fill>)
    ensures first + LegFills(m, owner, 0) == first && [] + first == first
  {
    hide WordSpan, OwnFill;
  }

  lemma FeesOfOne(first: seq<Fill>)
    requires |first| <= 1
    ensures FillFees(first) == if first == [] then 0 else first[0].fee
  {
    hide WordSpan;
    if first != [] {
      assert first[..|first| - 1] == [];
    }
  }

  lemma NextFills(fills: seq<Fill>, fees: nat, m: Match, owner: Address, first: seq<Fill>, i: nat)
    requires i < |m.legs| && FillsSoFar(fills, fees, m, owner, first, i)
    requires Fits(FillFees(first) + AllFees(m))
    ensures var own := OwnFill(m.legs[i], owner);
      FillsSoFar(if own == [] then fills else fills + own, fees + if own == [] then 0 else own[0].fee, m, owner,
                 first, i + 1)
    ensures m.legs[i].order.maker == owner ==> Fits(fees + m.legs[i].fee)
  {
    hide WordSpan, FillFees, Sum;
    var own := OwnFill(m.legs[i], owner);
    OwnerFeesAtMost(m, owner, first, i + 1);
    SumsPrefix(m.legs, i + 1);
    FillFeesAppend(fills, own);
    assert first + LegFills(m, owner, i + 1) == fills + own;
    assert own == [] ==> fills + own == fills;
  }

  method BuildSettlement(call: MatchOrdersCall, owner: Address, v: Venue, hash: MatchOrder -> Hash)
    returns (r: Option<SettledMatch>)
    requires call.Aligned() && v.idA != v.idB
    ensures r.Some? <==> Settles(call, owner, v, hash)
    ensures r.Some? ==> Describes(r.value, MatchOf(call, v, hash), owner,
                                  Outcome(MatchOf(call, v, hash), BranchFor(call.takerOrder, call.makerOrders)))
  {
    hide FlowsFit, FlowsAre, Accepts, Outcome, OrderUsable, FillUsable, FeeWithinCap, LegCapped, MakerUsable;
    var taker := call.takerOrder;
    if !OrderUsable(taker, v) || !FillUsable(taker, call.takerAmounts.fill) { return None; }
    var legs :- PrepareLegs(call, v, hash);
    var m := Match(v, taker, hash(taker), call.takerAmounts, legs);
    assert m == MatchOf(call, v, hash);
    var branch := BranchFor(taker, call.makerOrders);
    var built :- BuildBranch(m, branch);
    UsableMeansListed(call, v, hash);
    OutcomeExpected(m, branch);
    OutcomeFits(m, branch);
    var clears :- ExchangeNetIsZero(built.logs, v);
    if !clears { return None; }
    if FeeWithinCap(m.amounts.fee, CashBasis(taker, built.making, built.taking)) != Some(true) { return None; }
    var fills :- FillsAndFees(m, owner, built);
    var flows := NO_FLOWS;
    if fills.0 != [] {
      flows :- AccountFlows(built.logs, owner, v);
    }
    r := Some(SettledMatch(built.branch, built.logs, flows, fills.1,
                           if taker.maker == owner then built.refund else 0, fills.0, fills.0 != []));
  }

  lemma UsableMeansListed(call: MatchOrdersCall, v: Venue, hash: MatchOrder -> Hash)
    requires call.Aligned() && CallUsable(call, v)
    ensures ListedTokens(MatchOf(call, v, hash))
  {
    hide WordSpan, CheckedMulDiv;
    forall i | 0 <= i < |call.makerOrders|
      ensures v.Lists(MatchOf(call, v, hash).legs[i].order.tokenId)
    {
      assert MakerUsable(call, v, i);
    }
  }

  lemma OutcomeFits(m: Match, branch: Branch)
    requires Accepts(m, branch)
    ensures var built := Outcome(m, branch);
      Fits(built.making) && Fits(built.taking) && Fits(built.refund) && Fits(m.amounts.fee + AllFees(m))
      && built.fees == m.amounts.fee + AllFees(m)
  {
    hide WordSpan, IntakeOk, NormalLegOk, CheckedMulDiv, Pass, Receipt, MintClosing, MergeClosing, NormalClosing;
    hide MintLogs, MergeLogs, SellersCoverFees;
  }
}
