/** One matchOrders call settles as a normal, a mint or a merge match. The methods rebuild the
    receipt step by step in checked arithmetic; each is proved equal to an acceptance condition
    and an outcome stated over whole sums of unbounded naturals. */
module Settlement {
  import opened Words
  import opened Ledger
  import opened MatchCall

  const MAX_FEE_RATE_BPS: U256 := 1_000
  const BPS: U256 := 10_000

  datatype Branch = NormalMatch | MintMatch | MergeMatch

  /** The fixed parties of a settlement. `ids` are the two complementary position ids. */
  datatype Venue = Venue(exchange: Address, feeReceiver: Address, module_: Address, idA: U256, idB: U256) {
    predicate Lists(id: U256) { id == idA || id == idB }

    /** The other id of the pair; ids are searched in order, so idA wins a tie. */
    function Other(id: U256): U256 { if id == idA then idB else idA }
  }

  /** One maker order as it settles: `taking` is what the order asks for `fill`, rounded down. */
  datatype Leg = Leg(order: MatchOrder, hash: Hash, fill: U256, taking: U256, fee: U256)

  /** A match ready to settle. */
  datatype Match = Match(venue: Venue, taker: MatchOrder, takerHash: Hash, amounts: TakerAmounts, legs: seq<Leg>)

  datatype Built = Built(branch: Branch, making: nat, taking: nat, fees: nat, refund: nat, logs: seq<Log>)

  // ----- pieces shared by the builders and their specifications

  function Pays(from: Address, to: Address, amount: U256): Log { Moved(Cash(Pusd, from, to, amount)) }

  function Gives(operator: Address, from: Address, to: Address, id: U256, amount: U256): Log {
    Moved(Single(PositionManager, operator, from, to, id, amount))
  }

  function FeeLog(v: Venue, amount: U256): Log { Noted(FeeCharged(v.feeReceiver, amount)) }

  function FillLog(hash: Hash, order: MatchOrder, taker: Address, making: U256, taking: U256, fee: U256): Log {
    Noted(OrderFilled(hash, order.maker, taker, order.side, order.tokenId, making, taking, fee,
                      order.builder, order.metadata))
  }

  function MatchedLog(hash: Hash, order: MatchOrder, making: U256, taking: U256): Log {
    Noted(OrdersMatched(hash, order.maker, order.side, order.tokenId, making, taking))
  }

  function LegFillLog(m: Match, leg: Leg): Log {
    FillLog(leg.hash, leg.order, m.taker.maker, leg.fill, leg.taking, leg.fee)
  }

  function Crosses(taker: MatchOrder, maker: MatchOrder): Option<bool> {
    var left :- CheckedMul(taker.makerAmount, maker.makerAmount);
    var right :- CheckedMul(taker.takerAmount, maker.takerAmount);
    Some(left >= right)
  }

  function ValidBatchPair(taker: MatchOrder, maker: MatchOrder, v: Venue): Option<bool> {
    if !v.Lists(taker.tokenId) || !v.Lists(maker.tokenId) then
      None
    else if taker.side != maker.side then
      if taker.tokenId != maker.tokenId then Some(false) else Crosses(taker, maker)
    else if taker.tokenId == maker.tokenId then
      Some(false)
    else
      var a :- CheckedMul(taker.takerAmount, maker.makerAmount);
      var b :- CheckedMul(maker.takerAmount, taker.makerAmount);
      var left :- CheckedAdd(a, b);
      if taker.side == Buy then
        var right :- CheckedMul(taker.takerAmount, maker.takerAmount);
        Some(left >= right)
      else
        var right :- CheckedMul(taker.makerAmount, maker.makerAmount);
        Some(left <= right)
  }

  function FeeWithinCap(fee: U256, cash: U256): Option<bool> {
    var scaled :- CheckedMul(cash, MAX_FEE_RATE_BPS);
    var cap :- CheckedDiv(scaled, BPS);
    Some(fee <= cap)
  }

  // ----- sums over legs

  /** The amounts of a leg, told apart by the side of its order. */
  datatype Part = BuyFill | BuyTaking | BuyFee | SellFill | SellTaking | SellFee

  function Share(leg: Leg, part: Part): nat {
    if leg.order.side == Buy then
      match part case BuyFill => leg.fill case BuyTaking => leg.taking case BuyFee => leg.fee case _ => 0
    else
      match part case SellFill => leg.fill case SellTaking => leg.taking case SellFee => leg.fee case _ => 0
  }

  /** The sum of one part over the first n legs. */
  ghost function Sum(legs: seq<Leg>, n: nat, part: Part): nat
    requires n <= |legs|
  {
    if n == 0 then 0 else Sum(legs, n - 1, part) + Share(legs[n - 1], part)
  }

  ghost function Fills(legs: seq<Leg>, n: nat): nat
    requires n <= |legs|
  {
    Sum(legs, n, BuyFill) + Sum(legs, n, SellFill)
  }

  ghost function Takings(legs: seq<Leg>, n: nat): nat
    requires n <= |legs|
  {
    Sum(legs, n, BuyTaking) + Sum(legs, n, SellTaking)
  }

  ghost function Fees(legs: seq<Leg>, n: nat): nat
    requires n <= |legs|
  {
    Sum(legs, n, BuyFee) + Sum(legs, n, SellFee)
  }

  ghost function All(m: Match, part: Part): nat { Sum(m.legs, |m.legs|, part) }
  ghost function AllFills(m: Match): nat { Fills(m.legs, |m.legs|) }
  ghost function AllTakings(m: Match): nat { Takings(m.legs, |m.legs|) }
  ghost function AllFees(m: Match): nat { Fees(m.legs, |m.legs|) }

  lemma {:induction false} SumPrefix(legs: seq<Leg>, i: nat, part: Part)
    requires i <= |legs|
    ensures Sum(legs, i, part) <= Sum(legs, |legs|, part)
    decreases |legs| - i
  {
    if i < |legs| {
      SumPrefix(legs, i + 1, part);
    }
  }

  /** The running sums of a pass never exceed the sums over all legs. */
  lemma SumsPrefix(legs: seq<Leg>, i: nat)
    requires i <= |legs|
    ensures Fills(legs, i) <= Fills(legs, |legs|) && Takings(legs, i) <= Takings(legs, |legs|)
    ensures Fees(legs, i) <= Fees(legs, |legs|)
    ensures Sum(legs, i, BuyFill) + Sum(legs, i, BuyFee) <= Sum(legs, |legs|, BuyFill) + Sum(legs, |legs|, BuyFee)
    ensures Sum(legs, i, BuyTaking) <= Sum(legs, |legs|, BuyTaking)
    ensures Sum(legs, i, SellFill) <= Sum(legs, |legs|, SellFill)
  {
    SumPrefix(legs, i, BuyFill);
    SumPrefix(legs, i, SellFill);
    SumPrefix(legs, i, BuyTaking);
    SumPrefix(legs, i, SellTaking);
    SumPrefix(legs, i, BuyFee);
    SumPrefix(legs, i, SellFee);
  }

  ghost predicate SellersCoverFees(legs: seq<Leg>) {
    forall i :: 0 <= i < |legs| && legs[i].order.side == Sell ==> legs[i].fee <= legs[i].taking
  }

  lemma {:induction false} SellNetGrows(legs: seq<Leg>, i: nat)
    requires i <= |legs|
    ensures SellersCoverFees(legs) ==>
      Sum(legs, i, SellTaking) - Sum(legs, i, SellFee)
        <= Sum(legs, |legs|, SellTaking) - Sum(legs, |legs|, SellFee)
    decreases |legs| - i
  {
    if i < |legs| {
      SellNetGrows(legs, i + 1);
    }
  }

  function When(condition: bool, log: Log): seq<Log> { if condition then [log] else [] }

  /** Pushing one list after another is pushing both at once. */
  lemma Onto(pushed: seq<Log>, own: seq<Log>, next: seq<Log>)
    ensures pushed + own + next == pushed + (own + next)
  {
  }

  method PushWhen(condition: bool, log: Log, pushed: seq<Log>) returns (logs: seq<Log>)
    ensures logs == pushed + When(condition, log)
  {
    logs := if condition then pushed + [log] else pushed;
  }

  /** An amount that the acceptance conditions keep within a word. */
  function Word(n: int): U256 { if Fits(n) then n else 0 }

  predicate AnyFees(m: Match) { m.amounts.fee > 0 || exists leg :: leg in m.legs && leg.fee > 0 }

  // ----- what each pass over the legs logs

  datatype Phase = NormalPass | MintIntake | MintPayout | MergeIntake | MergePayout

  ghost function LegLogs(m: Match, phase: Phase, leg: Leg): seq<Log> {
    var v, taker, maker := m.venue, m.taker.maker, leg.order.maker;
    var fee := When(leg.fee > 0, FeeLog(v, leg.fee));
    match phase
    case NormalPass =>
      if m.taker.side == Buy then
        [Gives(v.exchange, maker, taker, leg.order.tokenId, leg.fill)]
        + [Pays(taker, maker, Word(leg.taking - leg.fee))] + [LegFillLog(m, leg)] + fee
      else if AnyFees(m) then
        [LegFillLog(m, leg)] + [Pays(maker, v.exchange, Word(leg.fill + leg.fee))]
        + [Gives(v.exchange, taker, maker, m.taker.tokenId, leg.taking)] + fee
      else
        [Gives(v.exchange, taker, maker, m.taker.tokenId, leg.taking)]
        + [Pays(maker, taker, leg.fill)]
        + [FillLog(leg.hash, leg.order, taker, leg.fill, leg.taking, 0)]
    case MintIntake =>
      [if leg.order.side == Buy then Pays(maker, v.exchange, Word(leg.fill + leg.fee))
       else Gives(v.exchange, maker, v.exchange, leg.order.tokenId, leg.fill)]
      + [LegFillLog(m, leg)]
    case MintPayout =>
      [if leg.order.side == Sell then Pays(v.exchange, maker, Word(leg.taking - leg.fee))
       else Gives(v.exchange, v.exchange, maker, v.Other(m.taker.tokenId), leg.taking)]
      + fee
    case MergeIntake =>
      [if leg.order.side == Buy then Pays(maker, v.exchange, Word(leg.fill + leg.fee))
       else Gives(v.exchange, maker, v.module_, leg.order.tokenId, leg.fill)]
      + [LegFillLog(m, leg)]
    case MergePayout =>
      [if leg.order.side == Buy then Gives(v.exchange, taker, maker, m.taker.tokenId, leg.taking)
       else Pays(v.exchange, maker, Word(leg.taking - leg.fee))]
      + fee
  }

  /** The logs of one pass over the first n legs. */
  ghost function Pass(m: Match, phase: Phase, n: nat): seq<Log>
    requires n <= |m.legs|
  {
    if n == 0 then [] else Pass(m, phase, n - 1) + LegLogs(m, phase, m.legs[n - 1])
  }

  // ----- the normal match

  ghost predicate NormalAmountsOk(m: Match, leg: Leg) {
    && (m.taker.side == Buy ==> leg.fee <= leg.taking)
    && (m.taker.side == Sell && AnyFees(m) ==> Fits(leg.fill + leg.fee))
  }

  ghost predicate NormalLegOk(m: Match, leg: Leg) {
    Crosses(m.taker, leg.order) == Some(true) && NormalAmountsOk(m, leg)
  }

  ghost predicate NormalAccepts(m: Match) {
    && (forall i :: 0 <= i < |m.legs| ==> NormalLegOk(m, m.legs[i]))
    && Fits(m.amounts.fee + AllFees(m))
    && Fits(AllTakings(m))
    && AllTakings(m) <= m.amounts.fill
    && AllFills(m) == m.amounts.receive
    && CheckedMulDiv(AllTakings(m), m.taker.takerAmount, m.taker.makerAmount).Some?
    && AllFills(m) >= CheckedMulDiv(AllTakings(m), m.taker.takerAmount, m.taker.makerAmount).value
    && (m.taker.side == Sell && AnyFees(m) ==> m.amounts.fee <= AllFills(m))
  }

  ghost function NormalClosing(m: Match): seq<Log> {
    var v, taker, fees := m.venue, m.taker.maker, m.amounts.fee + AllFees(m);
    if m.taker.side == Buy then
      When(m.amounts.fee > 0, FeeLog(v, m.amounts.fee)) + When(fees > 0, Pays(taker, v.feeReceiver, Word(fees)))
    else if AnyFees(m) then
      [Pays(v.exchange, taker, Word(AllFills(m) - m.amounts.fee))]
      + When(m.amounts.fee > 0, FeeLog(v, m.amounts.fee))
      + When(fees > 0, Pays(v.exchange, v.feeReceiver, Word(fees)))
    else
      []
  }

  /** The two events that close every match. */
  ghost function Receipt(m: Match, making: nat, taking: nat): seq<Log> {
    [FillLog(m.takerHash, m.taker, m.venue.exchange, Word(making), Word(taking), m.amounts.fee)]
    + [MatchedLog(m.takerHash, m.taker, Word(making), Word(taking))]
  }

  ghost function NormalOutcome(m: Match): Built {
    Built(NormalMatch, AllTakings(m), AllFills(m), m.amounts.fee + AllFees(m), 0,
          Pass(m, NormalPass, |m.legs|) + NormalClosing(m) + Receipt(m, AllTakings(m), AllFills(m)))
  }

  method PushNormalLeg(m: Match, leg: Leg, anyFees: bool, pushed: seq<Log>) returns (r: Option<seq<Log>>)
    requires anyFees == AnyFees(m)
    ensures r == if NormalAmountsOk(m, leg) then Some(pushed + LegLogs(m, NormalPass, leg)) else None
  {
    hide AnyFees, LegFillLog, When, WordSpan;
    var v, taker, maker := m.venue, m.taker.maker, leg.order.maker;
    var fee := FeeLog(v, leg.fee);
    ghost var own;
    var logs;
    if m.taker.side == Buy {
      var net :- CheckedSub(leg.taking, leg.fee);
      logs, own := PushThree(Gives(v.exchange, maker, taker, leg.order.tokenId, leg.fill), Pays(taker, maker, net),
                             LegFillLog(m, leg), pushed);
      logs := PushWhen(leg.fee > 0, fee, logs);
      Onto(pushed, own, When(leg.fee > 0, fee));
    } else if anyFees {
      var gross :- CheckedAdd(leg.fill, leg.fee);
      logs, own := PushThree(LegFillLog(m, leg), Pays(maker, v.exchange, gross),
                             Gives(v.exchange, taker, maker, m.taker.tokenId, leg.taking), pushed);
      logs := PushWhen(leg.fee > 0, fee, logs);
      Onto(pushed, own, When(leg.fee > 0, fee));
    } else {
      logs, own := PushThree(Gives(v.exchange, taker, maker, m.taker.tokenId, leg.taking), Pays(maker, taker, leg.fill),
                             FillLog(leg.hash, leg.order, taker, leg.fill, leg.taking, 0), pushed);
    }
    r := Some(logs);
  }

  method PushThree(x: Log, y: Log, z: Log, pushed: seq<Log>) returns (logs: seq<Log>, ghost own: seq<Log>)
    ensures own == [x] + [y] + [z] && logs == pushed + own
  {
    own := [x] + [y] + [z];
    logs := pushed + [x];
    logs := logs + [y];
    logs := logs + [z];
  }

  method PushNormalClosing(m: Match, anyFees: bool, taking: U256, fees: U256, pushed: seq<Log>)
    returns (r: Option<seq<Log>>)
    requires anyFees == AnyFees(m)
    requires taking == AllFills(m) && fees == m.amounts.fee + AllFees(m)
    ensures r == if m.taker.side == Sell && anyFees && m.amounts.fee > taking then None
                 else Some(pushed + NormalClosing(m))
  {
    hide AnyFees, When, WordSpan, AllFills, AllFees;
    var v, taker := m.venue, m.taker.maker;
    var feeLog := FeeLog(v, m.amounts.fee);
    ghost var some := When(m.amounts.fee > 0, feeLog);
    var logs := pushed;
    if m.taker.side == Buy {
      logs := PushWhen(m.amounts.fee > 0, feeLog, logs);
      logs := PushWhen(fees > 0, Pays(taker, v.feeReceiver, fees), logs);
      Onto(pushed, some, When(fees > 0, Pays(taker, v.feeReceiver, fees)));
    } else if anyFees {
      var net :- CheckedSub(taking, m.amounts.fee);
      logs := logs + [Pays(v.exchange, taker, net)];
      logs := PushWhen(m.amounts.fee > 0, feeLog, logs);
      logs := PushWhen(fees > 0, Pays(v.exchange, v.feeReceiver, fees), logs);
      Onto(pushed, [Pays(v.exchange, taker, net)], some);
      Onto(pushed, [Pays(v.exchange, taker, net)] + some, When(fees > 0, Pays(v.exchange, v.feeReceiver, fees)));
    } else {
      assert pushed + [] == pushed;
    }
    r := Some(logs);
  }

  /** The running totals of the normal match after i legs. */
  datatype NormalRun = NormalRun(making: U256, taking: U256, fees: U256, logs: seq<Log>)

  ghost predicate NormalSoFar(m: Match, i: nat, run: NormalRun)
    requires i <= |m.legs|
  {
    && run.making == Takings(m.legs, i) && run.taking == Fills(m.legs, i)
    && run.fees == m.amounts.fee + Fees(m.legs, i)
    && (forall j :: 0 <= j < i ==> NormalLegOk(m, m.legs[j]))
    && run.logs == Pass(m, NormalPass, i)
  }

  /** What an accepted normal match implies for its first legs. */
  lemma NormalNeeds(m: Match, i: nat)
    requires i < |m.legs| && NormalAccepts(m)
    ensures NormalLegOk(m, m.legs[i]) && Fits(m.amounts.fee + Fees(m.legs, i + 1))
    ensures Fits(Takings(m.legs, i + 1)) && Fits(Fills(m.legs, i + 1))
  {
    hide NormalLegOk, CheckedMulDiv, WordSpan, Share;
    SumsPrefix(m.legs, i + 1);
  }

  /** One leg more is settled. */
  lemma NormalMore(m: Match, i: nat, run: NormalRun, next: NormalRun)
    requires i < |m.legs| && NormalSoFar(m, i, run) && NormalLegOk(m, m.legs[i])
    requires next.making == run.making + m.legs[i].taking && next.taking == run.taking + m.legs[i].fill
    requires next.fees == run.fees + m.legs[i].fee && next.logs == run.logs + LegLogs(m, NormalPass, m.legs[i])
    ensures NormalSoFar(m, i + 1, next)
  {
    hide LegLogs, WordSpan, NormalLegOk;
  }

  method SettleNormalLeg(m: Match, i: nat, anyFees: bool, run: NormalRun) returns (r: Option<NormalRun>)
    requires i < |m.legs| && NormalSoFar(m, i, run) && anyFees == AnyFees(m)
    ensures r.Some? ==> NormalSoFar(m, i + 1, r.value)
    ensures r.None? ==> !NormalAccepts(m)
  {
    hide Crosses, NormalAccepts, LegLogs, AnyFees, NormalAmountsOk, WordSpan, Pass;
    var leg := m.legs[i];
    if NormalAccepts(m) { NormalNeeds(m, i); }
    if Crosses(m.taker, leg.order) != Some(true) { return None; }
    var fees :- CheckedAdd(run.fees, leg.fee);
    var making :- CheckedAdd(run.making, leg.taking);
    var taking :- CheckedAdd(run.taking, leg.fill);
    var logs :- PushNormalLeg(m, leg, anyFees, run.logs);
    var next := NormalRun(making, taking, fees, logs);
    NormalMore(m, i, run, next);
    r := Some(next);
  }

  method SettleNormalLegs(m: Match, anyFees: bool) returns (r: Option<NormalRun>)
    requires anyFees == AnyFees(m)
    ensures r.Some? ==> NormalSoFar(m, |m.legs|, r.value)
    ensures r.None? ==> !NormalAccepts(m)
  {
    hide NormalAccepts, AnyFees, NormalLegOk, LegLogs;
    var run := NormalRun(0, 0, m.amounts.fee, []);
    for i := 0 to |m.legs|
      invariant NormalSoFar(m, i, run)
    {
      run :- SettleNormalLeg(m, i, anyFees, run);
    }
    r := Some(run);
  }

  method BuildNormal(m: Match) returns (r: Option<Built>)
    ensures r.Some? <==> NormalAccepts(m)
    ensures r.Some? ==> r.value == NormalOutcome(m)
  {
    hide Crosses, CheckedMulDiv, LegLogs, AnyFees, NormalAmountsOk, NormalClosing, Pass, Sum;
    var anyFees := AnyFees(m);
    var run :- SettleNormalLegs(m, anyFees);
    if run.making > m.amounts.fill || run.taking != m.amounts.receive { return None; }
    var minTake :- CheckedMulDiv(run.making, m.taker.takerAmount, m.taker.makerAmount);
    if run.taking < minTake { return None; }
    var logs :- PushNormalClosing(m, anyFees, run.taking, run.fees, run.logs);
    logs := PushReceipt(m, run.making, run.taking, logs);
    r := Some(Built(NormalMatch, run.making, run.taking, run.fees, 0, logs));
  }

  // ----- the mint match: the taker buys

  /** A leg that the first pass of a mint or merge takes in. */
  ghost predicate IntakeOk(m: Match, leg: Leg) {
    && ValidBatchPair(m.taker, leg.order, m.venue) == Some(true)
    && (leg.order.side == Buy ==> Fits(leg.fill + leg.fee))
  }

  function MintDeposit(m: Match): Log {
    Pays(m.taker.maker, m.venue.exchange, Word(m.amounts.fill + m.amounts.fee))
  }

  /** What is left of the collateral after the mint, the sellers and the fees. */
  ghost function MintRefund(m: Match): int {
    m.amounts.fill + All(m, BuyFill) - All(m, BuyTaking) - All(m, SellTaking)
  }

  ghost predicate MintAccepts(m: Match) {
    && m.venue.Lists(m.taker.tokenId)
    && Fits(m.amounts.fill + m.amounts.fee + All(m, BuyFill) + All(m, BuyFee))
    && (forall i :: 0 <= i < |m.legs| ==> IntakeOk(m, m.legs[i]))
    && Fits(m.amounts.fee + AllFees(m))
    && PayoutFits(m)
    && Fits(All(m, SellFill) + All(m, BuyTaking))
    && All(m, SellFill) + All(m, BuyTaking) == m.amounts.receive
    && 0 <= MintRefund(m) <= m.amounts.fill
  }

  ghost function MintLogs(m: Match, amount: nat): seq<Log> {
    var v, a := m.venue, Word(amount);
    if amount == 0 then
      []
    else
      [Pays(v.exchange, v.module_, a)]
      + [Gives(v.module_, ZERO_ADDRESS, v.exchange, v.idA, a)]
      + [Gives(v.module_, ZERO_ADDRESS, v.exchange, v.idB, a)]
      + [Pays(v.module_, ZERO_ADDRESS, a)]
      + [Noted(PositionsSplit(v.module_, v.exchange, v.idA, v.exchange, v.exchange, a))]
  }

  ghost function MintClosing(m: Match): seq<Log> {
    var v, taker := m.venue, m.taker.maker;
    var fees := m.amounts.fee + AllFees(m);
    [Gives(v.exchange, v.exchange, taker, m.taker.tokenId, Word(All(m, SellFill) + All(m, BuyTaking)))]
    + When(fees > 0, Pays(v.exchange, v.feeReceiver, Word(fees)))
    + When(MintRefund(m) > 0, Pays(v.exchange, taker, Word(MintRefund(m))))
    + When(m.amounts.fee > 0, FeeLog(v, m.amounts.fee))
  }

  ghost function MintOutcome(m: Match): Built
    requires MintAccepts(m)
  {
    var refund := MintRefund(m);
    var making, taking := m.amounts.fill - refund, All(m, SellFill) + All(m, BuyTaking);
    Built(MintMatch, making, taking, m.amounts.fee + AllFees(m), refund,
          [MintDeposit(m)] + Pass(m, MintIntake, |m.legs|) + MintLogs(m, All(m, BuyTaking))
          + Pass(m, MintPayout, |m.legs|) + MintClosing(m) + Receipt(m, making, taking))
  }

  /** The running totals of the first pass of a mint. */
  datatype MintRun = MintRun(collateral: U256, mint: U256, tokenIn: U256, fees: U256, logs: seq<Log>)

  ghost predicate MintSoFar(m: Match, i: nat, run: MintRun)
    requires i <= |m.legs|
  {
    && run.collateral == m.amounts.fill + m.amounts.fee + Sum(m.legs, i, BuyFill) + Sum(m.legs, i, BuyFee)
    && run.mint == Sum(m.legs, i, BuyTaking) && run.tokenIn == Sum(m.legs, i, SellFill)
    && run.fees == m.amounts.fee + Fees(m.legs, i)
    && (forall j :: 0 <= j < i ==> IntakeOk(m, m.legs[j]))
    && run.logs == [MintDeposit(m)] + Pass(m, MintIntake, i)
  }

  method PushIntake(m: Match, phase: Phase, leg: Leg, pushed: seq<Log>) returns (logs: seq<Log>)
    requires phase == MintIntake || phase == MergeIntake
    requires leg.order.side == Buy ==> Fits(leg.fill + leg.fee)
    ensures logs == pushed + LegLogs(m, phase, leg)
  {
    var v, maker := m.venue, leg.order.maker;
    if leg.order.side == Buy {
      logs := pushed + [Pays(maker, v.exchange, leg.fill + leg.fee)];
    } else if phase == MintIntake {
      logs := pushed + [Gives(v.exchange, maker, v.exchange, leg.order.tokenId, leg.fill)];
    } else {
      logs := pushed + [Gives(v.exchange, maker, v.module_, leg.order.tokenId, leg.fill)];
    }
    logs := logs + [LegFillLog(m, leg)];
  }

  /** What an accepted mint implies for its first legs. */
  lemma MintNeeds(m: Match, i: nat)
    requires i < |m.legs|
    ensures MintAccepts(m) ==> IntakeOk(m, m.legs[i])
    ensures MintAccepts(m) ==> Fits(m.amounts.fee + Fees(m.legs, i + 1))
    ensures MintAccepts(m) ==>
      Fits(m.amounts.fill + m.amounts.fee + Sum(m.legs, i + 1, BuyFill) + Sum(m.legs, i + 1, BuyFee))
    ensures MintAccepts(m) ==> Fits(Sum(m.legs, i + 1, SellFill)) && Fits(Sum(m.legs, i + 1, BuyTaking))
  {
    hide ValidBatchPair, PayoutFits, WordSpan, LegLogs, MintRefund, Share;
    SumsPrefix(m.legs, i + 1);
  }

  /** One leg more is taken in. */
  lemma MintMore(m: Match, i: nat, run: MintRun, next: MintRun)
    requires i < |m.legs| && MintSoFar(m, i, run) && IntakeOk(m, m.legs[i])
    requires next.fees == run.fees + m.legs[i].fee && next.logs == run.logs + LegLogs(m, MintIntake, m.legs[i])
    requires next.collateral == run.collateral + Share(m.legs[i], BuyFill) + Share(m.legs[i], BuyFee)
    requires next.mint == run.mint + Share(m.legs[i], BuyTaking)
    requires next.tokenIn == run.tokenIn + Share(m.legs[i], SellFill)
    ensures MintSoFar(m, i + 1, next)
  {
    hide LegLogs, WordSpan, IntakeOk;
    Onto([MintDeposit(m)], Pass(m, MintIntake, i), LegLogs(m, MintIntake, m.legs[i]));
  }

  method TakeInMintLeg(m: Match, i: nat, run: MintRun) returns (r: Option<MintRun>)
    requires i < |m.legs| && MintSoFar(m, i, run)
    ensures r.Some? ==> MintSoFar(m, i + 1, r.value)
    ensures r.None? ==> !MintAccepts(m)
  {
    hide ValidBatchPair, WordSpan, LegLogs, MintAccepts, Pass;
    MintNeeds(m, i);
    var leg := m.legs[i];
    if ValidBatchPair(m.taker, leg.order, m.venue) != Some(true) { return None; }
    var collateral, mint, tokenIn := run.collateral, run.mint, run.tokenIn;
    var fees :- CheckedAdd(run.fees, leg.fee);
    if leg.order.side == Buy {
      var gross :- CheckedAdd(leg.fill, leg.fee);
      collateral :- CheckedAdd(collateral, gross);
      mint :- CheckedAdd(mint, leg.taking);
    } else {
      tokenIn :- CheckedAdd(tokenIn, leg.fill);
    }
    var logs := PushIntake(m, MintIntake, leg, run.logs);
    var next := MintRun(collateral, mint, tokenIn, fees, logs);
    MintMore(m, i, run, next);
    r := Some(next);
  }

  method TakeInMint(m: Match, opening: MintRun) returns (r: Option<MintRun>)
    requires MintSoFar(m, 0, opening)
    ensures r.Some? ==> MintSoFar(m, |m.legs|, r.value)
    ensures r.None? ==> !MintAccepts(m)
  {
    hide MintAccepts, MintSoFar;
    var run := opening;
    for i := 0 to |m.legs|
      invariant MintSoFar(m, i, run)
    {
      run :- TakeInMintLeg(m, i, run);
    }
    r := Some(run);
  }

  ghost predicate PaidSoFar(m: Match, phase: Phase, i: nat, out: U256, base: seq<Log>, logs: seq<Log>)
    requires i <= |m.legs|
  {
    && out == Sum(m.legs, i, SellTaking) - Sum(m.legs, i, SellFee)
    && (forall j :: 0 <= j < i && m.legs[j].order.side == Sell ==> m.legs[j].fee <= m.legs[j].taking)
    && logs == base + Pass(m, phase, i)
  }

  ghost predicate PayoutFits(m: Match) {
    SellersCoverFees(m.legs) && Fits(All(m, SellTaking) - All(m, SellFee))
  }

  method PushPayout(m: Match, phase: Phase, leg: Leg, pushed: seq<Log>) returns (logs: seq<Log>)
    requires phase == MintPayout || phase == MergePayout
    requires leg.order.side == Sell ==> leg.fee <= leg.taking
    ensures logs == pushed + LegLogs(m, phase, leg)
  {
    hide When, AnyFees, WordSpan;
    var v, taker, maker := m.venue, m.taker.maker, leg.order.maker;
    var out: Log;
    if leg.order.side == Sell {
      out := Pays(v.exchange, maker, leg.taking - leg.fee);
    } else if phase == MintPayout {
      out := Gives(v.exchange, v.exchange, maker, v.Other(m.taker.tokenId), leg.taking);
    } else {
      out := Gives(v.exchange, taker, maker, m.taker.tokenId, leg.taking);
    }
    logs := pushed + [out];
    logs := PushWhen(leg.fee > 0, FeeLog(v, leg.fee), logs);
    Onto(pushed, [out], When(leg.fee > 0, FeeLog(v, leg.fee)));
  }

  /** One leg more is paid out. */
  lemma PaidMore(m: Match, phase: Phase, i: nat, out: U256, newOut: U256, base: seq<Log>, paid: seq<Log>,
                 logs: seq<Log>)
    requires i < |m.legs| && PaidSoFar(m, phase, i, out, base, paid)
    requires m.legs[i].order.side == Sell ==> m.legs[i].fee <= m.legs[i].taking
    requires newOut == out + if m.legs[i].order.side == Sell then m.legs[i].taking - m.legs[i].fee else 0
    requires logs == paid + LegLogs(m, phase, m.legs[i])
    ensures PaidSoFar(m, phase, i + 1, newOut, base, logs)
  {
    hide LegLogs, WordSpan;
    Onto(base, Pass(m, phase, i), LegLogs(m, phase, m.legs[i]));
  }

  /** What is paid so far fits when everything does. */
  lemma PayoutNeeds(m: Match, i: nat)
    requires i < |m.legs| && PayoutFits(m)
    ensures m.legs[i].order.side == Sell ==> m.legs[i].fee <= m.legs[i].taking
    ensures Fits(Sum(m.legs, i + 1, SellTaking) - Sum(m.legs, i + 1, SellFee))
  {
    hide WordSpan, Share;
    SellNetGrows(m.legs, i + 1);
    SellersCover(m.legs, i + 1);
  }

  lemma {:induction false} SellersCover(legs: seq<Leg>, n: nat)
    requires n <= |legs| && SellersCoverFees(legs)
    ensures Sum(legs, n, SellFee) <= Sum(legs, n, SellTaking)
  {
    hide WordSpan;
    if n > 0 {
      SellersCover(legs, n - 1);
    }
  }

  /** Pays one leg out: a seller is paid net of the fee, a buyer is given the position. */
  method PayLeg(m: Match, phase: Phase, i: nat, out: U256, ghost base: seq<Log>, paid: seq<Log>)
    returns (r: Option<(U256, seq<Log>)>)
    requires phase == MintPayout || phase == MergePayout
    requires i < |m.legs| && PaidSoFar(m, phase, i, out, base, paid)
    ensures r.Some? ==> PaidSoFar(m, phase, i + 1, r.value.0, base, r.value.1)
    ensures r.None? ==> !PayoutFits(m)
  {
    hide LegLogs, WordSpan, PayoutFits;
    var leg := m.legs[i];
    var newOut := out;
    if PayoutFits(m) { PayoutNeeds(m, i); }
    if leg.order.side == Sell {
      if leg.fee > leg.taking { return None; }
      var net: U256 := leg.taking - leg.fee;
      newOut :- CheckedAdd(out, net);
    }
    var logs := PushPayout(m, phase, leg, paid);
    PaidMore(m, phase, i, out, newOut, base, paid, logs);
    hide PaidSoFar;
    r := Some((newOut, logs));
  }

  method PayLegs(m: Match, phase: Phase, base: seq<Log>) returns (r: Option<(U256, seq<Log>)>)
    requires phase == MintPayout || phase == MergePayout
    ensures r.Some? <==> PayoutFits(m)
    ensures r.Some? ==> r.value == (All(m, SellTaking) - All(m, SellFee), base + Pass(m, phase, |m.legs|))
  {
    hide PaidSoFar, PayoutFits, WordSpan;
    var out: U256, logs := 0, base;
    NothingPaid(m, phase, base);
    for i := 0 to |m.legs|
      invariant PaidSoFar(m, phase, i, out, base, logs)
    {
      var next :- PayLeg(m, phase, i, out, base, logs);
      out, logs := next.0, next.1;
    }
    AllPaid(m, phase, out, base, logs);
    r := Some((out, logs));
  }

  lemma NothingPaid(m: Match, phase: Phase, base: seq<Log>)
    ensures PaidSoFar(m, phase, 0, 0, base, base)
  {
    hide WordSpan;
    assert base + [] == base;
  }

  lemma AllPaid(m: Match, phase: Phase, out: U256, base: seq<Log>, logs: seq<Log>)
    requires PaidSoFar(m, phase, |m.legs|, out, base, logs)
    ensures PayoutFits(m)
    ensures out == All(m, SellTaking) - All(m, SellFee) && logs == base + Pass(m, phase, |m.legs|)
  {
    hide WordSpan, Sum, Pass;
    assert Fits(out);
  }

  method PushMintLogs(m: Match, mint: U256, pushed: seq<Log>) returns (logs: seq<Log>)
    ensures logs == pushed + MintLogs(m, mint)
  {
    var v := m.venue;
    logs := pushed;
    if mint > 0 {
      logs := logs + [Pays(v.exchange, v.module_, mint)];
      logs := logs + [Gives(v.module_, ZERO_ADDRESS, v.exchange, v.idA, mint)];
      logs := logs + [Gives(v.module_, ZERO_ADDRESS, v.exchange, v.idB, mint)];
      logs := logs + [Pays(v.module_, ZERO_ADDRESS, mint)];
      logs := logs + [Noted(PositionsSplit(v.module_, v.exchange, v.idA, v.exchange, v.exchange, mint))];
    }
  }

  method PushMintClosing(m: Match, taking: U256, fees: U256, refund: U256, pushed: seq<Log>) returns (logs: seq<Log>)
    requires taking == All(m, SellFill) + All(m, BuyTaking)
    requires fees == m.amounts.fee + AllFees(m) && refund == MintRefund(m)
    ensures logs == pushed + MintClosing(m)
  {
    hide When, WordSpan, MintRefund, AllFees, All;
    var v, taker := m.venue, m.taker.maker;
    var given := Gives(v.exchange, v.exchange, taker, m.taker.tokenId, taking);
    var feesLog := Pays(v.exchange, v.feeReceiver, fees);
    var refundLog, feeLog := Pays(v.exchange, taker, refund), FeeLog(v, m.amounts.fee);
    logs := pushed + [given];
    logs := PushWhen(fees > 0, feesLog, logs);
    logs := PushWhen(refund > 0, refundLog, logs);
    logs := PushWhen(m.amounts.fee > 0, feeLog, logs);
    ghost var own := [given] + When(fees > 0, feesLog);
    Onto(pushed, [given], When(fees > 0, feesLog));
    Onto(pushed, own, When(refund > 0, refundLog));
    Onto(pushed, own + When(refund > 0, refundLog), When(m.amounts.fee > 0, feeLog));
  }

  method PushReceipt(m: Match, making: U256, taking: U256, pushed: seq<Log>) returns (logs: seq<Log>)
    ensures logs == pushed + Receipt(m, making, taking)
  {
    logs := pushed + [FillLog(m.takerHash, m.taker, m.venue.exchange, making, taking, m.amounts.fee)];
    logs := logs + [MatchedLog(m.takerHash, m.taker, making, taking)];
  }

  /** What is still to be checked of a mint once its legs are taken in. */
  lemma MintTaken(m: Match, run: MintRun)
    requires m.venue.Lists(m.taker.tokenId) && MintSoFar(m, |m.legs|, run)
    ensures run.mint == All(m, BuyTaking) && run.tokenIn == All(m, SellFill) && run.fees == m.amounts.fee + AllFees(m)
    ensures run.logs == [MintDeposit(m)] + Pass(m, MintIntake, |m.legs|)
    ensures MintRefund(m) == run.collateral - run.mint - (All(m, SellTaking) - All(m, SellFee)) - run.fees
    ensures MintAccepts(m) <==>
      PayoutFits(m) && Fits(run.tokenIn + run.mint) && run.tokenIn + run.mint == m.amounts.receive
      && 0 <= MintRefund(m) <= m.amounts.fill
  {
    hide WordSpan, Pass, Sum, IntakeOk, SellersCoverFees;
    assert Fits(run.collateral) && Fits(run.fees);
  }

  lemma MintStarts(m: Match)
    ensures MintAccepts(m) ==> m.venue.Lists(m.taker.tokenId) && Fits(m.amounts.fill + m.amounts.fee)
  {
    hide WordSpan, IntakeOk, PayoutFits, MintRefund, Sum;
  }

  method BuildMint(m: Match) returns (r: Option<Built>)
    ensures r.Some? <==> MintAccepts(m)
    ensures r.Some? ==> r.value == MintOutcome(m)
  {
    hide MintClosing, MintLogs, Receipt, Pass, All, AllFees, IntakeOk, PayoutFits, MintAccepts, MintSoFar, MintRefund;
    MintStarts(m);
    if !m.venue.Lists(m.taker.tokenId) { return None; }
    var deposit :- CheckedAdd(m.amounts.fill, m.amounts.fee);
    var opening := MintRun(deposit, 0, 0, m.amounts.fee, [MintDeposit(m)]);
    MintOpens(m, opening);
    var run :- TakeInMint(m, opening);
    MintTaken(m, run);
    var logs := PushMintLogs(m, run.mint, run.logs);
    var payout :- PayLegs(m, MintPayout, logs);
    var taking :- CheckedAdd(run.tokenIn, run.mint);
    if taking != m.amounts.receive { return None; }
    var afterMint :- CheckedSub(run.collateral, run.mint);
    var afterSellers :- CheckedSub(afterMint, payout.0);
    var refund :- CheckedSub(afterSellers, run.fees);
    if refund > m.amounts.fill { return None; }
    var making: U256 := m.amounts.fill - refund;
    logs := PushMintClosing(m, taking, run.fees, refund, payout.1);
    logs := PushReceipt(m, making, taking, logs);
    r := Some(Built(MintMatch, making, taking, run.fees, refund, logs));
  }

  lemma MintOpens(m: Match, opening: MintRun)
    requires Fits(m.amounts.fill + m.amounts.fee)
    requires opening == MintRun(m.amounts.fill + m.amounts.fee, 0, 0, m.amounts.fee, [MintDeposit(m)])
    ensures MintSoFar(m, 0, opening)
  {
    assert [MintDeposit(m)] + [] == [MintDeposit(m)];
  }

  // ----- the merge match: the taker sells

  /** The cash that is left for the taker, before the taker fee. */
  ghost function MergeTaking(m: Match): int {
    All(m, BuyFill) + All(m, SellFill) - All(m, SellTaking)
  }

  ghost predicate MergeAccepts(m: Match) {
    && m.venue.Lists(m.taker.tokenId)
    && (forall i :: 0 <= i < |m.legs| ==> IntakeOk(m, m.legs[i]))
    && All(m, BuyTaking) + All(m, SellFill) == m.amounts.fill
    && All(m, SellFill) > 0
    && Fits(All(m, BuyFill) + All(m, BuyFee) + All(m, SellFill))
    && PayoutFits(m)
    && MergeTaking(m) == m.amounts.receive
    && m.amounts.fee <= MergeTaking(m)
  }

  ghost function MergeLogs(m: Match): seq<Log> {
    var v, a := m.venue, Word(All(m, SellFill));
    [Gives(v.exchange, m.taker.maker, v.module_, m.taker.tokenId, a)]
    + [Pays(ZERO_ADDRESS, v.exchange, a)]
    + [Gives(v.module_, v.module_, ZERO_ADDRESS, v.idA, a)]
    + [Gives(v.module_, v.module_, ZERO_ADDRESS, v.idB, a)]
    + [Noted(PositionsMerged(v.module_, v.exchange, v.idA, v.exchange, a))]
  }

  ghost function MergeClosing(m: Match): seq<Log> {
    var v, fees := m.venue, AllFees(m) + m.amounts.fee;
    [Pays(v.exchange, m.taker.maker, Word(MergeTaking(m) - m.amounts.fee))]
    + When(fees > 0, Pays(v.exchange, v.feeReceiver, Word(fees)))
    + When(m.amounts.fee > 0, FeeLog(v, m.amounts.fee))
  }

  ghost function MergeOutcome(m: Match): Built
    requires MergeAccepts(m)
  {
    Built(MergeMatch, m.amounts.fill, MergeTaking(m), AllFees(m) + m.amounts.fee, 0,
          Pass(m, MergeIntake, |m.legs|) + MergeLogs(m) + Pass(m, MergePayout, |m.legs|)
          + MergeClosing(m) + Receipt(m, m.amounts.fill, MergeTaking(m)))
  }

  /** The running totals of the first pass of a merge. */
  datatype MergeRun = MergeRun(remaining: U256, merge: U256, collateral: U256, fees: U256, logs: seq<Log>)

  ghost predicate MergeSoFar(m: Match, i: nat, run: MergeRun)
    requires i <= |m.legs|
  {
    && run.remaining == m.amounts.fill - Sum(m.legs, i, BuyTaking) - Sum(m.legs, i, SellFill)
    && run.merge == Sum(m.legs, i, SellFill) && run.fees == Fees(m.legs, i)
    && run.collateral == Sum(m.legs, i, BuyFill) + Sum(m.legs, i, BuyFee)
    && (forall j :: 0 <= j < i ==> IntakeOk(m, m.legs[j]))
    && run.logs == Pass(m, MergeIntake, i)
  }

  /** What an accepted merge implies for its first legs. */
  lemma MergeNeeds(m: Match, i: nat)
    requires i < |m.legs|
    ensures MergeAccepts(m) ==> IntakeOk(m, m.legs[i])
    ensures MergeAccepts(m) ==> Fits(Fees(m.legs, i + 1))
    ensures MergeAccepts(m) ==> Sum(m.legs, i + 1, BuyTaking) + Sum(m.legs, i + 1, SellFill) <= m.amounts.fill
    ensures MergeAccepts(m) ==> Fits(Sum(m.legs, i + 1, BuyFill) + Sum(m.legs, i + 1, BuyFee))
  {
    hide ValidBatchPair, WordSpan, LegLogs, MintRefund, Share;
    SumsPrefix(m.legs, i + 1);
  }

  /** One leg more is taken in. */
  lemma MergeMore(m: Match, i: nat, run: MergeRun, next: MergeRun)
    requires i < |m.legs| && MergeSoFar(m, i, run) && IntakeOk(m, m.legs[i])
    requires next.fees == run.fees + m.legs[i].fee && next.logs == run.logs + LegLogs(m, MergeIntake, m.legs[i])
    requires next.collateral == run.collateral + Share(m.legs[i], BuyFill) + Share(m.legs[i], BuyFee)
    requires next.remaining == run.remaining - Share(m.legs[i], BuyTaking) - Share(m.legs[i], SellFill)
    requires next.merge == run.merge + Share(m.legs[i], SellFill)
    ensures MergeSoFar(m, i + 1, next)
  {
    hide LegLogs, WordSpan, IntakeOk;
  }

  method TakeInMergeLeg(m: Match, i: nat, run: MergeRun) returns (r: Option<MergeRun>)
    requires i < |m.legs| && MergeSoFar(m, i, run)
    ensures r.Some? ==> MergeSoFar(m, i + 1, r.value)
    ensures r.None? ==> !MergeAccepts(m)
  {
    hide ValidBatchPair, WordSpan, LegLogs, MergeTaking, MintRefund, MergeAccepts;
    MergeNeeds(m, i);
    var leg := m.legs[i];
    if ValidBatchPair(m.taker, leg.order, m.venue) != Some(true) { return None; }
    var merge, collateral := run.merge, run.collateral;
    var remaining;
    var fees :- CheckedAdd(run.fees, leg.fee);
    if leg.order.side == Buy {
      remaining :- CheckedSub(run.remaining, leg.taking);
      var gross :- CheckedAdd(leg.fill, leg.fee);
      collateral :- CheckedAdd(collateral, gross);
    } else {
      remaining :- CheckedSub(run.remaining, leg.fill);
      merge := merge + leg.fill;
    }
    var logs := PushIntake(m, MergeIntake, leg, run.logs);
    var next := MergeRun(remaining, merge, collateral, fees, logs);
    MergeMore(m, i, run, next);
    r := Some(next);
  }

  method TakeInMerge(m: Match) returns (r: Option<MergeRun>)
    ensures r.Some? ==> MergeSoFar(m, |m.legs|, r.value)
    ensures r.None? ==> !MergeAccepts(m)
  {
    var run := MergeRun(m.amounts.fill, 0, 0, 0, []);
    assert MergeSoFar(m, 0, run);
    hide MergeAccepts, MergeSoFar;
    for i := 0 to |m.legs|
      invariant MergeSoFar(m, i, run)
    {
      run :- TakeInMergeLeg(m, i, run);
    }
    r := Some(run);
  }

  method PushMergeLogs(m: Match, merge: U256, pushed: seq<Log>) returns (logs: seq<Log>)
    requires merge == All(m, SellFill)
    ensures logs == pushed + MergeLogs(m)
  {
    var v := m.venue;
    logs := pushed + [Gives(v.exchange, m.taker.maker, v.module_, m.taker.tokenId, merge)];
    logs := logs + [Pays(ZERO_ADDRESS, v.exchange, merge)];
    logs := logs + [Gives(v.module_, v.module_, ZERO_ADDRESS, v.idA, merge)];
    logs := logs + [Gives(v.module_, v.module_, ZERO_ADDRESS, v.idB, merge)];
    logs := logs + [Noted(PositionsMerged(v.module_, v.exchange, v.idA, v.exchange, merge))];
  }

  method PushMergeClosing(m: Match, takerNet: U256, fees: U256, pushed: seq<Log>) returns (logs: seq<Log>)
    requires takerNet == MergeTaking(m) - m.amounts.fee && fees == AllFees(m) + m.amounts.fee
    ensures logs == pushed + MergeClosing(m)
  {
    hide When, WordSpan, MergeTaking, AllFees;
    var v := m.venue;
    var paid, feesLog := Pays(v.exchange, m.taker.maker, takerNet), Pays(v.exchange, v.feeReceiver, fees);
    var feeLog := FeeLog(v, m.amounts.fee);
    logs := pushed + [paid];
    logs := PushWhen(fees > 0, feesLog, logs);
    logs := PushWhen(m.amounts.fee > 0, feeLog, logs);
    Onto(pushed, [paid], When(fees > 0, feesLog));
    Onto(pushed, [paid] + When(fees > 0, feesLog), When(m.amounts.fee > 0, feeLog));
  }

  /** What is still to be checked of a merge once its legs are taken in. */
  lemma MergeTaken(m: Match, run: MergeRun)
    requires m.venue.Lists(m.taker.tokenId) && MergeSoFar(m, |m.legs|, run)
    ensures run.merge == All(m, SellFill) && run.fees == AllFees(m) && run.logs == Pass(m, MergeIntake, |m.legs|)
    ensures MergeTaking(m) == run.collateral + run.merge - (All(m, SellTaking) - All(m, SellFee)) - run.fees
    ensures MergeAccepts(m) <==>
      run.remaining == 0 && run.merge > 0 && Fits(run.collateral + run.merge) && PayoutFits(m)
      && MergeTaking(m) == m.amounts.receive && m.amounts.fee <= MergeTaking(m)
  {
    hide WordSpan, Pass, Sum, IntakeOk, SellersCoverFees;
  }

  lemma MergeStarts(m: Match)
    ensures MergeAccepts(m) ==> m.venue.Lists(m.taker.tokenId)
  {
    hide WordSpan, IntakeOk, PayoutFits, MergeTaking, All;
  }

  method BuildMerge(m: Match) returns (r: Option<Built>)
    ensures r.Some? <==> MergeAccepts(m)
    ensures r.Some? ==> r.value == MergeOutcome(m)
  {
    hide MergeClosing, MergeLogs, Receipt, Pass, All, AllFees, IntakeOk, PayoutFits, MergeAccepts, MergeSoFar;
    hide MergeTaking;
    MergeStarts(m);
    if !m.venue.Lists(m.taker.tokenId) { return None; }
    var run :- TakeInMerge(m);
    MergeTaken(m, run);
    if run.remaining != 0 || run.merge == 0 { return None; }
    var logs := PushMergeLogs(m, run.merge, run.logs);
    var collateral :- CheckedAdd(run.collateral, run.merge);
    var payout :- PayLegs(m, MergePayout, logs);
    var afterSellers :- CheckedSub(collateral, payout.0);
    var taking :- CheckedSub(afterSellers, run.fees);
    if taking != m.amounts.receive || m.amounts.fee > taking { return None; }
    var takerNet: U256 := taking - m.amounts.fee;
    var fees: U256 := run.fees + m.amounts.fee;
    logs := PushMergeClosing(m, takerNet, fees, payout.1);
    logs := PushReceipt(m, m.amounts.fill, taking, logs);
    r := Some(Built(MergeMatch, m.amounts.fill, taking, fees, 0, logs));
  }
}
