/** The checks of direct splits, merges and redemptions against their receipt logs, and their
    agreement with the replay of the same logs. */
module CtfOperations {
  import opened Arithmetic
  import opened Words
  import opened Ledger
  import opened Receipts
  import C = CtfCalls
  import Inventory

  datatype Kind = PrepareCondition | ResolveCondition | SplitSet | MergeSet | RedeemSlots

  /** The owner, the contracts, and the selected condition with its two position ids. */
  datatype Scope = Scope(owner: Address, usdce: Address, ctf: Address, exchange: Address, condition: Hash, ids: Pair)

  /** What a checked operation reports. */
  datatype Match = Match(kind: Kind, amount: U256, positions: Pair, sets: seq<U256>)

  type PayoutState = Option<(Pair, U256)>

  function ReplayScope(s: Scope): Inventory.Scope {
    Inventory.Scope(s.owner, s.ids.first, s.ids.second, Usdce, ConditionalTokens)
  }

  function BalanceOf(b: Balances, i: Side): U256 { if i == 0 then b.a else b.b }

  // ----- splits and merges

  /** The position id of one slot of a partition. */
  function IdOfSlot(slot: U256, s: Scope): Option<U256> {
    if slot == 1 then Some(s.ids.first) else if slot == 2 then Some(s.ids.second) else None
  }

  predicate InScope(collateral: Address, parent: Hash, condition: Hash, s: Scope) {
    collateral == s.usdce && parent == 0 && condition == s.condition
  }

  /** The four logs of a split, in their order; what is left of the approval is free. */
  predicate AreSplitLogs(logs: seq<Log>, s: Scope, ids: seq<U256>, partition: seq<U256>, amount: U256) {
    && |logs| == 4
    && logs[0] == Moved(Cash(Usdce, s.owner, s.ctf, amount))
    && logs[1].Noted? && logs[1].event.Approval? && logs[1].event.owner == s.owner && logs[1].event.spender == s.ctf
    && Fits(logs[1].event.amount + amount)
    && logs[2] == Moved(Batch(ConditionalTokens, s.owner, ZERO_ADDRESS, s.owner, ids, [amount, amount]))
    && logs[3] == Noted(OfCtf(SetSplit(s.owner, s.usdce, 0, s.condition, partition, amount)))
  }

  predicate AreMergeLogs(logs: seq<Log>, s: Scope, ids: seq<U256>, partition: seq<U256>, amount: U256) {
    && logs == [Moved(Batch(ConditionalTokens, s.owner, s.owner, ZERO_ADDRESS, ids, [amount, amount])),
                Moved(Cash(Usdce, s.ctf, s.owner, amount)),
                Noted(OfCtf(SetMerged(s.owner, s.usdce, 0, s.condition, partition, amount)))]
  }

  function CheckSplitOrMerge(logs: seq<Log>, s: Scope, call: C.OperationCall, balances: Balances, prepared: bool)
    : Option<Match>
    requires (call.Split? || call.Merge?) && |call.partition| == 2
  {
    if !prepared || !InScope(call.collateral, call.parent, call.condition, s) then
      None
    else
      var first :- IdOfSlot(call.partition[0], s);
      var second :- IdOfSlot(call.partition[1], s);
      if call.Split? then
        if AreSplitLogs(logs, s, [first, second], call.partition, call.amount) then
          Some(Match(SplitSet, call.amount, Pair(call.amount, call.amount), call.partition))
        else
          None
      else if AreMergeLogs(logs, s, [first, second], call.partition, call.amount)
              && BalanceOf(balances, if first == s.ids.second then 1 else 0) >= call.amount
              && BalanceOf(balances, if second == s.ids.second then 1 else 0) >= call.amount then
        Some(Match(MergeSet, call.amount, Pair(call.amount, call.amount), call.partition))
      else
        None
  }

  // ----- redemptions

  /** The state of the redemption loop: what is left, burned and paid, and the burns in order. */
  datatype Burned = Burned(remaining: Pair, burned: Pair, payout: U256, burns: seq<Side>)

  function StartBurn(balances: Balances): Burned { Burned(Pair(balances.a, balances.b), Pair(0, 0), 0, []) }

  function BurnSlot(b: Burned, slot: U256, numerators: Pair, denominator: U256): Option<Burned> {
    if slot != 1 && slot != 2 then
      None
    else
      var i: Side := slot - 1;
      var stake := b.remaining.Get(i);
      if stake == 0 then
        Some(b)
      else
        var burned :- CheckedAdd(b.burned.Get(i), stake);
        var share :- CheckedMulDiv(stake, numerators.Get(i), denominator);
        var payout :- CheckedAdd(b.payout, share);
        Some(Burned(b.remaining.With(i, 0), b.burned.With(i, burned), payout, b.burns + [i]))
  }

  function BurnSlots(start: Burned, sets: seq<U256>, numerators: Pair, denominator: U256): Option<Burned> {
    if sets == [] then
      Some(start)
    else
      var before :- BurnSlots(start, sets[..|sets| - 1], numerators, denominator);
      BurnSlot(before, sets[|sets| - 1], numerators, denominator)
  }

  method BurnAll(balances: Balances, sets: seq<U256>, numerators: Pair, denominator: U256)
    returns (r: Option<Burned>)
    ensures r == BurnSlots(StartBurn(balances), sets, numerators, denominator)
  {
    var current := StartBurn(balances);
    ghost var start := current;
    assert sets[..0] == [];
    for n := 0 to |sets|
      invariant BurnSlots(start, sets[..n], numerators, denominator) == Some(current)
    {
      hide WordSpan, BurnSlot;
      assert sets[..n + 1][..n] == sets[..n];
      var next := BurnSlot(current, sets[n], numerators, denominator);
      if next.None? {
        BurnStaysMissing(start, sets, numerators, denominator, n + 1);
        return None;
      }
      current := next.value;
    }
    assert sets[..|sets|] == sets;
    r := Some(current);
  }

  lemma {:induction false} BurnStaysMissing(start: Burned, sets: seq<U256>, numerators: Pair, denominator: U256, n: nat)
    requires n <= |sets| && BurnSlots(start, sets[..n], numerators, denominator).None?
    ensures BurnSlots(start, sets, numerators, denominator).None?
    decreases |sets| - n
  {
    hide BurnSlot;
    if n == |sets| {
      assert sets[..n] == sets;
    } else {
      assert sets[..n + 1][..n] == sets[..n];
      BurnStaysMissing(start, sets, numerators, denominator, n + 1);
    }
  }

  /** What is burned: all of an outcome whose slot is named, nothing of the other. */
  ghost function Named(balances: Balances, sets: seq<U256>): Pair {
    Pair(if 1 in sets then balances.a else 0, if 2 in sets then balances.b else 0)
  }

  ghost function Share(stakes: Pair, numerators: Pair, denominator: U256, i: Side): nat
    requires denominator > 0
  {
    hide WordSpan;
    stakes.Get(i) * numerators.Get(i) / denominator
  }

  ghost function Payout(stakes: Pair, numerators: Pair, denominator: U256): nat
    requires denominator > 0
  {
    Share(stakes, numerators, denominator, 0) + Share(stakes, numerators, denominator, 1)
  }

  /** Every product and the payout fit in a word. */
  ghost predicate PayoutFits(stakes: Pair, numerators: Pair, denominator: U256)
    requires denominator > 0
  {
    && Fits(stakes.first * numerators.first) && Fits(stakes.second * numerators.second)
    && Fits(Payout(stakes, numerators, denominator))
  }

  /** The loop's state when these stakes have been burned, said without the loop. */
  ghost predicate HasBurned(b: Burned, balances: Balances, stakes: Pair, numerators: Pair, denominator: U256)
    requires denominator > 0
  {
    && b.burned == stakes && b.payout == Payout(stakes, numerators, denominator)
    && b.remaining.first + stakes.first == balances.a && b.remaining.second + stakes.second == balances.b
    && BurnsAre(b.burns, stakes)
  }

  /** Each outcome with a stake is burned once. */
  ghost predicate BurnsAre(burns: seq<Side>, stakes: Pair) {
    match (stakes.first > 0, stakes.second > 0)
    case (false, false) => burns == []
    case (true, false) => burns == [0]
    case (false, true) => burns == [1]
    case (true, true) => burns == [0, 1] || burns == [1, 0]
  }

  lemma NamedMore(balances: Balances, sets: seq<U256>, slot: U256)
    ensures Named(balances, sets + [slot]) == if slot == 1 then Named(balances, sets).With(0, balances.a)
      else if slot == 2 then Named(balances, sets).With(1, balances.b) else Named(balances, sets)
  {
  }

  lemma BurnOneMore(b: Burned, balances: Balances, stakes: Pair, i: Side, numerators: Pair, denominator: U256)
    requires denominator > 0 && HasBurned(b, balances, stakes, numerators, denominator)
    requires PayoutFits(stakes, numerators, denominator)
    requires stakes.Get(i) == 0 || stakes.Get(i) == BalanceOf(balances, i)
    ensures var after, r := stakes.With(i, BalanceOf(balances, i)), BurnSlot(b, i + 1, numerators, denominator);
      && (r.Some? <==> PayoutFits(after, numerators, denominator))
      && (r.Some? ==> HasBurned(r.value, balances, after, numerators, denominator))
  {
    hide WordSpan;
    var after := stakes.With(i, BalanceOf(balances, i));
    if b.remaining.Get(i) == 0 {
      assert after == stakes;
    } else {
      assert stakes.Get(i) == 0 && Share(stakes, numerators, denominator, i) == 0;
    }
  }

  /** Burned amounts and payout depend only on which slots the list names, not on their order and
      not on repeats; the loop is refused exactly for another slot or a product that overflows. */
  lemma {:induction false} BurnsOnlyNamed(balances: Balances, sets: seq<U256>, numerators: Pair, denominator: U256)
    requires denominator > 0
    ensures var r := BurnSlots(StartBurn(balances), sets, numerators, denominator);
      && (r.Some? <==> C.AreSlots(sets) && PayoutFits(Named(balances, sets), numerators, denominator))
      && (r.Some? ==> HasBurned(r.value, balances, Named(balances, sets), numerators, denominator))
  {
    hide WordSpan, BurnSlot, HasBurned, PayoutFits, Named;
    if sets == [] {
      NothingBurned(balances, numerators, denominator);
    } else {
      var front, slot := sets[..|sets| - 1], sets[|sets| - 1];
      assert sets == front + [slot] && slot in sets && forall x :: x in front ==> x in sets;
      BurnsOnlyNamed(balances, front, numerators, denominator);
      NamedMore(balances, front, slot);
      NamedIsWhole(balances, front);
      var before := BurnSlots(StartBurn(balances), front, numerators, denominator);
      if slot != 1 && slot != 2 {
        OtherSlotRefused(before, slot, numerators, denominator);
      } else if before.Some? {
        BurnOneMore(before.value, balances, Named(balances, front), slot - 1, numerators, denominator);
      } else {
        FitsLess(balances, Named(balances, front), slot - 1, numerators, denominator);
      }
    }
  }

  lemma NothingBurned(balances: Balances, numerators: Pair, denominator: U256)
    requires denominator > 0
    ensures Named(balances, []) == Pair(0, 0) && PayoutFits(Pair(0, 0), numerators, denominator)
    ensures HasBurned(StartBurn(balances), balances, Pair(0, 0), numerators, denominator)
  {
    hide WordSpan;
  }

  lemma NamedIsWhole(balances: Balances, sets: seq<U256>)
    ensures forall i: Side ::
      Named(balances, sets).Get(i) == 0 || Named(balances, sets).Get(i) == BalanceOf(balances, i)
  {
  }

  lemma OtherSlotRefused(before: Option<Burned>, slot: U256, numerators: Pair, denominator: U256)
    requires slot != 1 && slot != 2
    ensures before.Some? ==> BurnSlot(before.value, slot, numerators, denominator).None?
  {
  }

  /** Naming one more slot never makes an overflow go away. */
  lemma FitsLess(balances: Balances, stakes: Pair, i: Side, numerators: Pair, denominator: U256)
    requires denominator > 0 && (stakes.Get(i) == 0 || stakes.Get(i) == BalanceOf(balances, i))
    ensures PayoutFits(stakes.With(i, BalanceOf(balances, i)), numerators, denominator)
      ==> PayoutFits(stakes, numerators, denominator)
  {
    hide WordSpan;
    var after := stakes.With(i, BalanceOf(balances, i));
    if stakes.Get(i) == 0 {
      FloorBounds(after.Get(i) * numerators.Get(i), denominator);
      assert Share(stakes, numerators, denominator, i) == 0;
    } else {
      assert after == stakes;
    }
  }

  /** Two lists that name the same slots burn and pay the same. */
  lemma SameSlotsSameBurn(balances: Balances, sets: seq<U256>, others: seq<U256>, numerators: Pair, denominator: U256)
    requires denominator > 0 && forall slot :: slot in sets <==> slot in others
    ensures var r, q := BurnSlots(StartBurn(balances), sets, numerators, denominator),
                        BurnSlots(StartBurn(balances), others, numerators, denominator);
      (r.Some? <==> q.Some?)
      && (r.Some? ==> r.value.burned == q.value.burned && r.value.payout == q.value.payout)
  {
    hide WordSpan, BurnSlots, PayoutFits, Payout;
    BurnsOnlyNamed(balances, sets, numerators, denominator);
    BurnsOnlyNamed(balances, others, numerators, denominator);
  }

  function BurnLogs(burns: seq<Side>, stakes: Pair, s: Scope): seq<Log> {
    if burns == [] then
      []
    else
      BurnLogs(burns[..|burns| - 1], stakes, s) + [BurnLog(burns[|burns| - 1], stakes, s)]
  }

  function BurnLog(i: Side, stakes: Pair, s: Scope): Log {
    Moved(Single(ConditionalTokens, s.owner, s.owner, ZERO_ADDRESS, s.ids.Get(i), stakes.Get(i)))
  }

  lemma BurnLogsAre(burns: seq<Side>, stakes: Pair, s: Scope)
    requires |burns| <= 2
    ensures |burns| == 1 ==> BurnLogs(burns, stakes, s) == [BurnLog(burns[0], stakes, s)]
    ensures |burns| == 2 ==>
      BurnLogs(burns, stakes, s) == [BurnLog(burns[0], stakes, s)] + [BurnLog(burns[1], stakes, s)]
  {
    hide BurnLog;
    if burns != [] {
      var front := burns[..|burns| - 1];
      assert |burns| == 2 ==> front[..0] == [] && front[0] == burns[0];
    }
  }

  function RedeemLogs(b: Burned, sets: seq<U256>, s: Scope): seq<Log> {
    BurnLogs(b.burns, b.burned, s)
    + (if b.payout == 0 then [] else [Moved(Cash(Usdce, s.ctf, s.owner, b.payout))])
    + [Noted(OfCtf(PayoutRedeemed(s.owner, s.usdce, 0, s.condition, sets, b.payout)))]
  }

  function RedeemMatch(logs: seq<Log>, s: Scope, sets: seq<U256>, burned: Option<Burned>): Option<Match> {
    var b :- burned;
    if logs == RedeemLogs(b, sets, s) then Some(Match(RedeemSlots, b.payout, b.burned, sets)) else None
  }

  predicate Redeemable(s: Scope, call: C.OperationCall, payout: PayoutState)
    requires call.Redeem?
  {
    InScope(call.collateral, call.parent, call.condition, s) && payout.Some? && payout.value.1 != 0
  }

  function CheckRedeem(logs: seq<Log>, s: Scope, call: C.OperationCall, balances: Balances, payout: PayoutState)
    : Option<Match>
    requires call.Redeem?
  {
    if !Redeemable(s, call, payout) then
      None
    else
      RedeemMatch(logs, s, call.sets,
                  BurnSlots(StartBurn(balances), call.sets, payout.value.0, payout.value.1))
  }

  method CheckRedeemCall(logs: seq<Log>, s: Scope, call: C.OperationCall, balances: Balances, payout: PayoutState)
    returns (r: Option<Match>)
    requires call.Redeem?
    ensures r == CheckRedeem(logs, s, call, balances, payout)
  {
    hide BurnSlots, RedeemMatch, WordSpan;
    if !Redeemable(s, call, payout) { return None; }
    var burned := BurnAll(balances, call.sets, payout.value.0, payout.value.1);
    r := RedeemMatch(logs, s, call.sets, burned);
  }

  // ----- a checked operation against the replay of its logs

  /** What a checked operation says that the owner gains. */
  ghost function Gain(m: Match, j: Inventory.AssetIndex): int {
    var sign := if m.kind.SplitSet? then 1 else -1;
    match j
    case PositionA => sign * m.positions.first
    case PositionB => sign * m.positions.second
    case PusdCash => 0 - sign * m.amount
  }

  ghost function AssetOf(s: Scope, j: Inventory.AssetIndex): Asset { Inventory.AssetOf(ReplayScope(s), j) }

  ghost predicate Separate(s: Scope) {
    s.owner != ZERO_ADDRESS && s.owner != s.ctf && s.ids.first != s.ids.second
  }

  lemma NetOfLogs(logs: seq<Log>, who: Address, asset: Asset)
    requires 3 <= |logs| <= 4
    ensures Net(logs, who, asset)
      == Step(logs[0], who, asset) + Step(logs[1], who, asset) + Step(logs[2], who, asset)
         + if |logs| == 4 then Step(logs[3], who, asset) else 0
  {
    hide Net, Step;
    NetLaws(who, asset);
    assert logs[..3] == [logs[0]] + [logs[1]] + [logs[2]];
    assert logs == if |logs| == 4 then logs[..3] + [logs[3]] else logs[..3];
  }

  lemma BatchOfBoth(x: U256, y: U256, amount: U256, id: U256)
    requires x != y
    ensures BatchAmount([x, y], [amount, amount], id) == if id == x || id == y then amount else 0
  {
    assert [x, y][1..] == [y] && [amount, amount][1..] == [amount];
    assert BatchAmount([y], [amount], id) == if y == id then amount else 0;
  }

  lemma SetLogsMove(logs: seq<Log>, s: Scope, call: C.OperationCall, balances: Balances, prepared: bool,
                    j: Inventory.AssetIndex)
    requires (call.Split? || call.Merge?) && C.IsPartition(call.partition) && Separate(s)
    requires CheckSplitOrMerge(logs, s, call, balances, prepared).Some?
    ensures Net(logs, s.owner, AssetOf(s, j)) == Gain(CheckSplitOrMerge(logs, s, call, balances, prepared).value, j)
  {
    hide Net, BatchAmount, WordSpan;
    NetOfLogs(logs, s.owner, AssetOf(s, j));
    var ids := [IdOfSlot(call.partition[0], s).value, IdOfSlot(call.partition[1], s).value];
    if !j.PusdCash? { BatchOfBoth(ids[0], ids[1], call.amount, AssetOf(s, j).id); }
  }

  lemma RedeemLogsMove(b: Burned, sets: seq<U256>, s: Scope, stakes: Pair, j: Inventory.AssetIndex)
    requires Separate(s) && BurnsAre(b.burns, stakes) && b.burned == stakes
    ensures Net(RedeemLogs(b, sets, s), s.owner, AssetOf(s, j)) == Gain(Match(RedeemSlots, b.payout, stakes, sets), j)
  {
    hide Net, WordSpan;
    var asset := AssetOf(s, j);
    NetLaws(s.owner, asset);
    BurnLogsMove(b.burns, stakes, s, j);
    hide BurnLogs;
    assert RedeemLogs(b, sets, s) == BurnLogs(b.burns, stakes, s)
      + (if b.payout == 0 then [] else [Moved(Cash(Usdce, s.ctf, s.owner, b.payout))])
      + [Noted(OfCtf(PayoutRedeemed(s.owner, s.usdce, 0, s.condition, sets, b.payout)))];
  }

  lemma BurnLogsMove(burns: seq<Side>, stakes: Pair, s: Scope, j: Inventory.AssetIndex)
    requires Separate(s) && BurnsAre(burns, stakes)
    ensures Net(BurnLogs(burns, stakes, s), s.owner, AssetOf(s, j)) == match j
      case PositionA => 0 - stakes.first
      case PositionB => 0 - stakes.second
      case PusdCash => 0
  {
    hide Net, WordSpan;
    NetLaws(s.owner, AssetOf(s, j));
    BurnLogsAre(burns, stakes, s);
  }

  /** The direct call of a transaction, checked. */
  function CheckCall(logs: seq<Log>, s: Scope, call: C.OperationCall, balances: Balances, prepared: bool,
                     payout: PayoutState): Option<Match>
    requires call.Split? || call.Merge? ==> |call.partition| == 2
  {
    if call.Split? || call.Merge? then CheckSplitOrMerge(logs, s, call, balances, prepared)
    else if call.Redeem? then CheckRedeem(logs, s, call, balances, payout)
    else None
  }

  /** Every accepted split, merge or redemption says exactly what its logs move. */
  lemma CheckedCallMoves(logs: seq<Log>, s: Scope, call: C.OperationCall, balances: Balances, prepared: bool,
                         payout: PayoutState, j: Inventory.AssetIndex)
    requires Separate(s) && (call.Split? || call.Merge? ==> C.IsPartition(call.partition))
    requires CheckCall(logs, s, call, balances, prepared, payout).Some?
    ensures Net(logs, s.owner, AssetOf(s, j)) == Gain(CheckCall(logs, s, call, balances, prepared, payout).value, j)
  {
    hide Net, WordSpan, BurnSlots, Gain, CheckSplitOrMerge, HasBurned;
    if call.Split? || call.Merge? {
      SetLogsMove(logs, s, call, balances, prepared, j);
    } else {
      RedeemedCallMoves(logs, s, call, balances, payout, j);
    }
  }

  lemma RedeemedCallMoves(logs: seq<Log>, s: Scope, call: C.OperationCall, balances: Balances, payout: PayoutState,
                          j: Inventory.AssetIndex)
    requires Separate(s) && call.Redeem? && CheckRedeem(logs, s, call, balances, payout).Some?
    ensures Net(logs, s.owner, AssetOf(s, j)) == Gain(CheckRedeem(logs, s, call, balances, payout).value, j)
  {
    hide Net, WordSpan, BurnSlots, Gain, RedeemLogs, Payout, PayoutFits, Separate;
    BurnsOnlyNamed(balances, call.sets, payout.value.0, payout.value.1);
    var b := BurnSlots(StartBurn(balances), call.sets, payout.value.0, payout.value.1).value;
    RedeemLogsMove(b, call.sets, s, b.burned, j);
  }

  // ----- merges and redemptions never underflow

  lemma ReplayFirst(b: Balances, rs: Inventory.Scope, log: Log, rest: seq<Log>)
    ensures Inventory.Replay(b, rs, [log] + rest) == if Inventory.ApplyLog(b, rs, log).Refused?
      then Inventory.ApplyLog(b, rs, log)
      else Inventory.Replay(Inventory.ApplyLog(b, rs, log).balances, rs, rest)
  {
    hide Inventory.ApplyLog;
    Inventory.ReplayConcat(b, rs, [log], rest);
    assert [log][..0] == [];
    assert Inventory.Replay(b, rs, [log]) == Inventory.ApplyLog(b, rs, log);
  }

  /** Crediting the owner's cash and a note after it: refused only when the cash overflows. */
  lemma CreditThenNote(b: Balances, s: Scope, amount: U256, note: Event)
    requires Separate(s)
    ensures var r := Inventory.Replay(b, ReplayScope(s), [Moved(Cash(Usdce, s.ctf, s.owner, amount))] + [Noted(note)]);
      (r.Applied? <==> Fits(b.cash + amount)) && (r.Refused? ==> r.reason == Inventory.BalanceOverflow)
  {
    hide WordSpan;
    var rs := ReplayScope(s);
    ReplayFirst(b, rs, Moved(Cash(Usdce, s.ctf, s.owner, amount)), [Noted(note)]);
    NoteApplies(Inventory.ApplyLog(b, rs, Moved(Cash(Usdce, s.ctf, s.owner, amount))).balances, rs, note);
  }

  lemma NoteApplies(b: Balances, rs: Inventory.Scope, note: Event)
    ensures Inventory.Replay(b, rs, [Noted(note)]) == Inventory.Applied(b)
  {
    assert [Noted(note)] == [Noted(note)] + [];
    ReplayFirst(b, rs, Noted(note), []);
  }

  lemma BatchOutApplies(b: Balances, s: Scope, ids: seq<U256>, amount: U256)
    requires Separate(s) && (ids == [s.ids.first, s.ids.second] || ids == [s.ids.second, s.ids.first])
    requires b.a >= amount && b.b >= amount
    ensures Inventory.ApplyBatch(b, ReplayScope(s), s.owner, ZERO_ADDRESS, ids, [amount, amount])
      == Inventory.Applied(Balances(b.a - amount, b.b - amount, b.cash))
  {
    hide WordSpan;
    var rs := ReplayScope(s);
    var i, j := Inventory.PositionIndex(rs, ids[0]).value, Inventory.PositionIndex(rs, ids[1]).value;
    var mid := Inventory.ApplyTransfer(b, rs, i, s.owner, ZERO_ADDRESS, amount).balances;
    assert ids[1..] == [ids[1]] && [amount, amount][1..] == [amount] && [ids[1]][1..] == [] && [amount][1..] == [];
    assert Inventory.ApplyBatch(mid, rs, s.owner, ZERO_ADDRESS, [ids[1]], [amount])
      == Inventory.ApplyTransfer(mid, rs, j, s.owner, ZERO_ADDRESS, amount);
  }

  lemma MergeNeverUnderflows(logs: seq<Log>, s: Scope, call: C.OperationCall, b: Balances, prepared: bool)
    requires Separate(s) && call.Merge? && C.IsPartition(call.partition)
    requires CheckSplitOrMerge(logs, s, call, b, prepared).Some?
    ensures var r := Inventory.Replay(b, ReplayScope(s), logs);
      (r.Applied? <==> Fits(b.cash + call.amount)) && (r.Refused? ==> r.reason == Inventory.BalanceOverflow)
  {
    hide WordSpan, Inventory.Replay, Inventory.ApplyBatch;
    var ids := [IdOfSlot(call.partition[0], s).value, IdOfSlot(call.partition[1], s).value];
    BatchOutApplies(b, s, ids, call.amount);
    assert logs == [logs[0]] + ([logs[1]] + [logs[2]]);
    ReplayFirst(b, ReplayScope(s), logs[0], [logs[1]] + [logs[2]]);
    CreditThenNote(Balances(b.a - call.amount, b.b - call.amount, b.cash), s, call.amount, logs[2].event);
  }

  lemma BurnApplies(b: Balances, s: Scope, i: Side, stakes: Pair)
    requires Separate(s) && BalanceOf(b, i) >= stakes.Get(i)
    ensures var r := Inventory.ApplyLog(b, ReplayScope(s), BurnLog(i, stakes, s));
      r.Applied? && r.balances.cash == b.cash && BalanceOf(r.balances, 1 - i) == BalanceOf(b, 1 - i)
  {
    hide WordSpan;
  }

  /** From these other balances, with the same cash, the rest replays as all of the logs do. */
  ghost predicate ReplaysFrom(b: Balances, c: Balances, s: Scope, logs: seq<Log>, rest: seq<Log>) {
    c.cash == b.cash
    && Inventory.Replay(b, ReplayScope(s), logs) == Inventory.Replay(c, ReplayScope(s), rest)
  }

  lemma BurnsApply(b: Balances, s: Scope, burns: seq<Side>, stakes: Pair, rest: seq<Log>)
    requires Separate(s) && BurnsAre(burns, stakes) && b.a >= stakes.first && b.b >= stakes.second
    ensures exists c :: ReplaysFrom(b, c, s, BurnLogs(burns, stakes, s) + rest, rest)
  {
    hide WordSpan, Inventory.Replay, Inventory.ApplyLog, BurnLog;
    var rs := ReplayScope(s);
    BurnLogsAre(burns, stakes, s);
    if burns == [] {
      assert BurnLogs(burns, stakes, s) + rest == rest;
      assert ReplaysFrom(b, b, s, rest, rest);
    } else {
      var first := BurnLog(burns[0], stakes, s);
      var more := if |burns| == 2 then [BurnLog(burns[1], stakes, s)] + rest else rest;
      assert BurnLogs(burns, stakes, s) + rest == [first] + more;
      BurnApplies(b, s, burns[0], stakes);
      ReplayFirst(b, rs, first, more);
      var c := Inventory.ApplyLog(b, rs, first).balances;
      if |burns| == 2 {
        BurnApplies(c, s, burns[1], stakes);
        ReplayFirst(c, rs, BurnLog(burns[1], stakes, s), rest);
        c := Inventory.ApplyLog(c, rs, BurnLog(burns[1], stakes, s)).balances;
      }
      assert ReplaysFrom(b, c, s, [first] + more, rest);
    }
  }

  lemma RedeemNeverUnderflows(logs: seq<Log>, s: Scope, call: C.OperationCall, b: Balances, payout: PayoutState)
    requires Separate(s) && call.Redeem? && CheckRedeem(logs, s, call, b, payout).Some?
    ensures var r := Inventory.Replay(b, ReplayScope(s), logs);
      && (r.Applied? <==> Fits(b.cash + CheckRedeem(logs, s, call, b, payout).value.amount))
      && (r.Refused? ==> r.reason == Inventory.BalanceOverflow)
  {
    hide WordSpan, Inventory.Replay, BurnSlots, BurnLogs, BurnsAre, Payout, PayoutFits, Named;
    BurnsOnlyNamed(b, call.sets, payout.value.0, payout.value.1);
    var burned := BurnSlots(StartBurn(b), call.sets, payout.value.0, payout.value.1).value;
    var note := OfCtf(PayoutRedeemed(s.owner, s.usdce, 0, s.condition, call.sets, burned.payout));
    var cash := if burned.payout == 0 then [] else [Moved(Cash(Usdce, s.ctf, s.owner, burned.payout))];
    var rest := cash + [Noted(note)];
    assert logs == BurnLogs(burned.burns, burned.burned, s) + rest;
    BurnsApply(b, s, burned.burns, burned.burned, rest);
    var c :| ReplaysFrom(b, c, s, logs, rest);
    if burned.payout == 0 {
      assert rest == [Noted(note)];
      NoteApplies(c, ReplayScope(s), note);
    } else {
      CreditThenNote(c, s, burned.payout, note);
    }
  }

  // ----- a checked operation replays to what it reports

  lemma BatchInApplies(b: Balances, s: Scope, ids: seq<U256>, amount: U256)
    requires Separate(s) && (ids == [s.ids.first, s.ids.second] || ids == [s.ids.second, s.ids.first])
    requires Fits(b.a + amount) && Fits(b.b + amount)
    ensures Inventory.ApplyBatch(b, ReplayScope(s), ZERO_ADDRESS, s.owner, ids, [amount, amount])
      == Inventory.Applied(Balances(b.a + amount, b.b + amount, b.cash))
  {
    hide WordSpan;
    var rs := ReplayScope(s);
    var i, j := Inventory.PositionIndex(rs, ids[0]).value, Inventory.PositionIndex(rs, ids[1]).value;
    var mid := Inventory.ApplyTransfer(b, rs, i, ZERO_ADDRESS, s.owner, amount).balances;
    assert ids[1..] == [ids[1]] && [amount, amount][1..] == [amount] && [ids[1]][1..] == [] && [amount][1..] == [];
    assert Inventory.ApplyBatch(mid, rs, ZERO_ADDRESS, s.owner, [ids[1]], [amount])
      == Inventory.ApplyTransfer(mid, rs, j, ZERO_ADDRESS, s.owner, amount);
  }

  /** A split is replayed when the owner has the cash and both positions have room. */
  lemma SplitReplays(logs: seq<Log>, s: Scope, call: C.OperationCall, b: Balances, prepared: bool)
    requires Separate(s) && call.Split? && C.IsPartition(call.partition)
    requires CheckSplitOrMerge(logs, s, call, b, prepared).Some?
    requires call.amount <= b.cash && Fits(b.a + call.amount) && Fits(b.b + call.amount)
    ensures Inventory.Replay(b, ReplayScope(s), logs).Applied?
  {
    hide WordSpan, Inventory.Replay, Inventory.ApplyBatch;
    var rs, amount := ReplayScope(s), call.amount;
    var paid := Balances(b.a, b.b, b.cash - amount);
    var ids := [IdOfSlot(call.partition[0], s).value, IdOfSlot(call.partition[1], s).value];
    BatchInApplies(paid, s, ids, amount);
    assert logs == [logs[0]] + ([logs[1]] + ([logs[2]] + [logs[3]]));
    ReplayFirst(b, rs, logs[0], [logs[1]] + ([logs[2]] + [logs[3]]));
    ReplayFirst(paid, rs, logs[1], [logs[2]] + [logs[3]]);
    ReplayFirst(paid, rs, logs[2], [logs[3]]);
    NoteApplies(Balances(b.a + amount, b.b + amount, b.cash - amount), rs, logs[3].event);
  }

  /** The balance after an operation, if it is a word. */
  ghost predicate GainFits(b: Balances, m: Match, j: Inventory.AssetIndex) { Fits(Inventory.Get(b, j) + Gain(m, j)) }

  /** Replaying an accepted operation changes every balance by exactly what the operation reports,
      and it is refused exactly when one of those new balances is not a word. */
  lemma CheckedCallReplays(logs: seq<Log>, s: Scope, call: C.OperationCall, b: Balances, prepared: bool,
                           payout: PayoutState)
    requires Separate(s) && (call.Split? || call.Merge? ==> C.IsPartition(call.partition))
    requires CheckCall(logs, s, call, b, prepared, payout).Some?
    ensures var m, r := CheckCall(logs, s, call, b, prepared, payout).value, Inventory.Replay(b, ReplayScope(s), logs);
      && (r.Applied? <==> forall j :: GainFits(b, m, j))
      && (r.Applied? ==> forall j :: Inventory.Get(r.balances, j) == Inventory.Get(b, j) + Gain(m, j))
  {
    hide WordSpan, Net, CheckCall, CheckRedeem, CheckSplitOrMerge, Gain, Inventory.Replay, Inventory.Get;
    var m, r := CheckCall(logs, s, call, b, prepared, payout).value, Inventory.Replay(b, ReplayScope(s), logs);
    if r.Applied? {
      forall j
        ensures Inventory.Get(r.balances, j) == Inventory.Get(b, j) + Gain(m, j) && GainFits(b, m, j)
      {
        CheckedCallMoves(logs, s, call, b, prepared, payout, j);
        Inventory.ReplayNet(b, ReplayScope(s), logs, j);
      }
    }
    if forall j :: GainFits(b, m, j) {
      assert GainFits(b, m, Inventory.PositionA) && GainFits(b, m, Inventory.PositionB);
      assert GainFits(b, m, Inventory.PusdCash);
      FittingCallReplays(logs, s, call, b, prepared, payout);
    }
  }

  lemma FittingCallReplays(logs: seq<Log>, s: Scope, call: C.OperationCall, b: Balances, prepared: bool,
                           payout: PayoutState)
    requires Separate(s) && (call.Split? || call.Merge? ==> C.IsPartition(call.partition))
    requires CheckCall(logs, s, call, b, prepared, payout).Some?
    requires var m := CheckCall(logs, s, call, b, prepared, payout).value;
      GainFits(b, m, Inventory.PositionA) && GainFits(b, m, Inventory.PositionB) && GainFits(b, m, Inventory.PusdCash)
    ensures Inventory.Replay(b, ReplayScope(s), logs).Applied?
  {
    hide WordSpan, BurnSlots, RedeemLogs, AreSplitLogs, AreMergeLogs, Separate, Inventory.Replay;
    if call.Split? {
      SplitReplays(logs, s, call, b, prepared);
    } else if call.Merge? {
      MergeNeverUnderflows(logs, s, call, b, prepared);
    } else {
      RedeemNeverUnderflows(logs, s, call, b, payout);
    }
  }
}
