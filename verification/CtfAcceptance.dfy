/** Which direct operations are accepted: the exact logs of an honest split, merge or redemption,
    written out. */
module CtfAcceptance {
  import opened Words
  import opened Ledger
  import opened Receipts
  import opened CtfOperations
  import C = CtfCalls

  /** The call names the selected condition over the selected collateral. */
  ghost predicate NamesCondition(call: C.OperationCall, s: Scope)
    requires call.Split? || call.Merge? || call.Redeem?
  {
    call.collateral == s.usdce && call.parent == 0 && call.condition == s.condition
  }

  /** The position ids in the order of a partition. */
  function IdsOf(partition: seq<U256>, s: Scope): seq<U256> {
    if partition == [1, 2] then [s.ids.first, s.ids.second] else [s.ids.second, s.ids.first]
  }

  function SplitLogs(s: Scope, partition: seq<U256>, amount: U256, left: U256): seq<Log> {
    [Moved(Cash(Usdce, s.owner, s.ctf, amount)),
     Noted(Approval(s.owner, s.ctf, left)),
     Moved(Batch(ConditionalTokens, s.owner, 0, s.owner, IdsOf(partition, s), [amount, amount])),
     Noted(OfCtf(SetSplit(s.owner, s.usdce, 0, s.condition, partition, amount)))]
  }

  function MergeLogs(s: Scope, partition: seq<U256>, amount: U256): seq<Log> {
    [Moved(Batch(ConditionalTokens, s.owner, s.owner, 0, IdsOf(partition, s), [amount, amount])),
     Moved(Cash(Usdce, s.ctf, s.owner, amount)),
     Noted(OfCtf(SetMerged(s.owner, s.usdce, 0, s.condition, partition, amount)))]
  }

  ghost predicate IsSplit(logs: seq<Log>, s: Scope, partition: seq<U256>, amount: U256) {
    exists left: U256 :: Fits(left + amount) && logs == SplitLogs(s, partition, amount, left)
  }

  /** A split is accepted exactly with its four logs, where the approval had room for the amount. */
  lemma SplitExactly(logs: seq<Log>, s: Scope, call: C.OperationCall, b: Balances, prepared: bool, payout: PayoutState)
    requires call.Split? && C.IsPartition(call.partition)
    ensures CheckCall(logs, s, call, b, prepared, payout).Some? <==>
      prepared && NamesCondition(call, s) && IsSplit(logs, s, call.partition, call.amount)
    ensures CheckCall(logs, s, call, b, prepared, payout).Some? ==>
      CheckCall(logs, s, call, b, prepared, payout).value
      == Match(SplitSet, call.amount, Pair(call.amount, call.amount), call.partition)
  {
    hide WordSpan;
    var ids := IdsOf(call.partition, s);
    if AreSplitLogs(logs, s, ids, call.partition, call.amount) {
      assert logs == SplitLogs(s, call.partition, call.amount, logs[1].event.amount);
    }
  }

  /** A merge is accepted exactly with its three logs, when both positions are held. */
  lemma MergeExactly(logs: seq<Log>, s: Scope, call: C.OperationCall, b: Balances, prepared: bool, payout: PayoutState)
    requires call.Merge? && C.IsPartition(call.partition) && s.ids.first != s.ids.second
    ensures CheckCall(logs, s, call, b, prepared, payout).Some? <==>
      prepared && NamesCondition(call, s) && b.a >= call.amount && b.b >= call.amount
      && logs == MergeLogs(s, call.partition, call.amount)
    ensures CheckCall(logs, s, call, b, prepared, payout).Some? ==>
      CheckCall(logs, s, call, b, prepared, payout).value
      == Match(MergeSet, call.amount, Pair(call.amount, call.amount), call.partition)
  {
    hide WordSpan;
  }

  // ----- redemptions

  /** What each outcome burns: all of it when its slot is named. */
  function Stakes(b: Balances, sets: seq<U256>): Pair {
    Pair(if 1 in sets then b.a else 0, if 2 in sets then b.b else 0)
  }

  function Burn(s: Scope, i: Side, amount: U256): Log {
    Moved(Single(ConditionalTokens, s.owner, s.owner, 0, s.ids.Get(i), amount))
  }

  /** The burns, the outcome that is named first before the other; an outcome without a stake is
      not burned. */
  function Burns(s: Scope, stakes: Pair, sets: seq<U256>): seq<Log> {
    var first := if stakes.first > 0 then [Burn(s, 0, stakes.first)] else [];
    var second := if stakes.second > 0 then [Burn(s, 1, stakes.second)] else [];
    if sets != [] && sets[0] == 2 then second + first else first + second
  }

  function RedemptionLogs(s: Scope, stakes: Pair, sets: seq<U256>, paid: U256): seq<Log> {
    Burns(s, stakes, sets)
    + (if paid > 0 then [Moved(Cash(Usdce, s.ctf, s.owner, paid))] else [])
    + [Noted(OfCtf(PayoutRedeemed(s.owner, s.usdce, 0, s.condition, sets, paid)))]
  }

  function Only(i: Side, stakes: Pair): seq<Side> { if stakes.Get(i) > 0 then [i] else [] }

  function SidesInOrder(stakes: Pair, sets: seq<U256>): seq<Side> {
    if sets != [] && sets[0] == 2 then Only(1, stakes) + Only(0, stakes) else Only(0, stakes) + Only(1, stakes)
  }

  /** Outcomes are burned in the order in which the list first names them. */
  lemma {:induction false} BurnedInOrder(b: Balances, sets: seq<U256>, numerators: Pair, denominator: U256)
    requires denominator > 0 && BurnSlots(StartBurn(b), sets, numerators, denominator).Some?
    ensures BurnSlots(StartBurn(b), sets, numerators, denominator).value.burns == SidesInOrder(Stakes(b, sets), sets)
  {
    hide WordSpan, PayoutFits, Payout, Share, BurnSlot, BurnsAre, Named, Stakes, SidesInOrder;
    if sets == [] {
      NothingOrdered(b);
    } else {
      var front, slot := sets[..|sets| - 1], sets[|sets| - 1];
      assert sets == front + [slot];
      BurnedInOrder(b, front, numerators, denominator);
      BurnsOnlyNamed(b, front, numerators, denominator);
      BurnsOnlyNamed(b, sets, numerators, denominator);
      var before := BurnSlots(StartBurn(b), front, numerators, denominator).value;
      assert slot in sets;
      OneMoreSide(before, b, front, slot, numerators, denominator);
    }
  }

  lemma NothingOrdered(b: Balances)
    ensures SidesInOrder(Stakes(b, []), []) == []
  {
  }

  lemma OneMoreSide(before: Burned, b: Balances, front: seq<U256>, slot: U256, numerators: Pair, denominator: U256)
    requires (slot == 1 || slot == 2) && forall x :: x in front ==> x == 1 || x == 2
    requires before.burns == SidesInOrder(Stakes(b, front), front)
    requires before.remaining.first + Named(b, front).first == b.a
    requires before.remaining.second + Named(b, front).second == b.b
    requires BurnSlot(before, slot, numerators, denominator).Some?
    ensures BurnSlot(before, slot, numerators, denominator).value.burns
      == SidesInOrder(Stakes(b, front + [slot]), front + [slot])
  {
    hide WordSpan, CheckedMulDiv, CheckedAdd;
    if front != [] { assert front[0] in front; }
  }

  /** What the stakes pay: each outcome at its own share, rounded down. */
  ghost function Paid(stakes: Pair, numerators: Pair, denominator: U256): int
    requires denominator > 0
  {
    stakes.first * numerators.first / denominator + stakes.second * numerators.second / denominator
  }

  lemma PayoutIsPaid(stakes: Pair, numerators: Pair, denominator: U256)
    requires denominator > 0
    ensures Payout(stakes, numerators, denominator) == Paid(stakes, numerators, denominator)
  {
    hide WordSpan;
  }

  ghost predicate RedemptionFits(stakes: Pair, numerators: Pair, denominator: U256)
    requires denominator > 0
  {
    && Fits(stakes.first * numerators.first) && Fits(stakes.second * numerators.second)
    && Fits(Paid(stakes, numerators, denominator))
  }

  lemma BurnLogsInOrder(s: Scope, stakes: Pair, sets: seq<U256>)
    ensures BurnLogs(SidesInOrder(stakes, sets), stakes, s) == Burns(s, stakes, sets)
  {
    hide WordSpan, BurnLogs;
    var sides := SidesInOrder(stakes, sets);
    BurnLogsAre(sides, stakes, s);
    NoBurnLogs(stakes, s);
  }

  lemma NoBurnLogs(stakes: Pair, s: Scope)
    ensures BurnLogs([], stakes, s) == []
  {
  }

  /** A redemption is accepted exactly when it names only the two slots, its amounts are words, and
      its logs are the burns of all that is held of the named outcomes, the cash, if any, and the
      event. */
  lemma RedeemExactly(logs: seq<Log>, s: Scope, call: C.OperationCall, b: Balances, prepared: bool, payout: PayoutState)
    requires call.Redeem?
    ensures CheckCall(logs, s, call, b, prepared, payout).Some? <==>
      NamesCondition(call, s) && payout.Some? && payout.value.1 > 0
      && (forall slot :: slot in call.sets ==> slot == 1 || slot == 2)
      && var stakes := Stakes(b, call.sets);
         RedemptionFits(stakes, payout.value.0, payout.value.1)
         && logs == RedemptionLogs(s, stakes, call.sets, Paid(stakes, payout.value.0, payout.value.1))
    ensures CheckCall(logs, s, call, b, prepared, payout).Some? ==>
      var stakes := Stakes(b, call.sets);
      CheckCall(logs, s, call, b, prepared, payout).value
      == Match(RedeemSlots, Paid(stakes, payout.value.0, payout.value.1), stakes, call.sets)
  {
    hide WordSpan, BurnSlots, BurnLogs, Burns, Payout, Paid, SidesInOrder, BurnsAre, Stakes;
    if payout.Some? && payout.value.1 > 0 {
      StakesAreNamed(b, call.sets);
      PayoutIsPaid(Stakes(b, call.sets), payout.value.0, payout.value.1);
      BurnsOnlyNamed(b, call.sets, payout.value.0, payout.value.1);
      var burned := BurnSlots(StartBurn(b), call.sets, payout.value.0, payout.value.1);
      if burned.Some? {
        BurnedInOrder(b, call.sets, payout.value.0, payout.value.1);
        BurnLogsInOrder(s, Stakes(b, call.sets), call.sets);
      }
    }
  }

  lemma StakesAreNamed(b: Balances, sets: seq<U256>)
    ensures Stakes(b, sets) == Named(b, sets)
  {
  }
}
