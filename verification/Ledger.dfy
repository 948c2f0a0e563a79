/** Receipt logs as typed values, and meters that add up what a list of logs moves. */
module Ledger {
  import opened Words

  datatype Token = Pusd | Usdce
  datatype Book = PositionManager | ConditionalTokens
  datatype Emitter = FromToken(token: Token) | FromBook(book: Book)
  datatype TradeSide = Buy | Sell

  /** A token or position transfer. Undecodable is a log of a tracked contract that carries
      the topic of a transfer but not its layout. */
  datatype Movement =
    | Cash(token: Token, from: Address, to: Address, amount: U256)
    | Single(book: Book, operator: Address, from: Address, to: Address, id: U256, amount: U256)
    | Batch(book: Book, operator: Address, from: Address, to: Address, ids: seq<U256>, amounts: seq<U256>)
    | Undecodable(emitter: Emitter)

  /** The other events that the replays read. */
  datatype Event =
    | FeeCharged(receiver: Address, amount: U256)
    | OrderFilled(hash: Hash, maker: Address, taker: Address, side: TradeSide, id: U256,
                  making: U256, taking: U256, fee: U256, builder: Hash, metadata: Hash)
    | OrdersMatched(hash: Hash, takerMaker: Address, side: TradeSide, id: U256, making: U256, taking: U256)
    | PositionsSplit(module_: Address, caller: Address, condition: Hash,
                     recipientA: Address, recipientB: Address, amount: U256)
    | PositionsMerged(module_: Address, caller: Address, condition: Hash, recipient: Address, amount: U256)
    | PositionRedeemed(module_: Address, caller: Address, id: U256, recipient: Address, amount: U256, payout: U256)
    | Approval(owner: Address, spender: Address, amount: U256)
    | OfCtf(ctfEvent: CtfEvent)
    | Emitted(emitter: Address, topic: Topic, words: seq<U256>)

  /** Events of the conditional-token contract. Malformed is one of its known topics on a log
      that does not have the layout. */
  datatype CtfEvent =
    | SetSplit(stakeholder: Address, collateral: Address, parent: Hash, condition: Hash, partition: seq<U256>,
               amount: U256)
    | SetMerged(stakeholder: Address, collateral: Address, parent: Hash, condition: Hash, partition: seq<U256>,
                amount: U256)
    | PayoutRedeemed(redeemer: Address, collateral: Address, parent: Hash, condition: Hash, sets: seq<U256>,
                     payout: U256)
    | ConditionPrepared(condition: Hash, oracle: Address, question: Hash, count: U256)
    | ConditionResolved(condition: Hash, oracle: Address, question: Hash, count: U256, numerators: seq<U256>)
    | Malformed(topic: CtfTopic)

  datatype CtfTopic = OperationTopic | PreparationTopic | ResolutionTopic | OtherCtfTopic

  /** Topics of other events. A control change is an event that a replay must not pass over. */
  datatype Topic =
    | ResultStored | ResultReported | LegacyResolved | PositionMigrated | CollateralSettled
    | ControlChange | OtherTopic | NoTopic

  /** Assumption: the movement observations of a transaction are its Moved logs, in order. */
  datatype Log = Moved(movement: Movement) | Noted(event: Event)

  datatype Asset = Fungible(token: Token) | Position(book: Book, id: U256)

  /** What to add up over a list of logs. A transfer from an account to itself counts
      neither as inflow nor as outflow. */
  datatype Meter =
    | Inflow(who: Address, asset: Asset)
    | Outflow(who: Address, asset: Asset)
    | FeesCharged

  function BatchAmount(ids: seq<U256>, amounts: seq<U256>, id: U256): nat {
    if ids == [] || amounts == [] then
      0
    else
      (if ids[0] == id then amounts[0] else 0) + BatchAmount(ids[1..], amounts[1..], id)
  }

  lemma {:induction false} UnlistedBatch(ids: seq<U256>, amounts: seq<U256>, id: U256)
    requires id !in ids
    ensures BatchAmount(ids, amounts, id) == 0
    decreases |ids|
  {
    if ids != [] && amounts != [] {
      UnlistedBatch(ids[1..], amounts[1..], id);
    }
  }

  /** The amount of an asset that a movement carries, whoever sends it. */
  function Carried(m: Movement, asset: Asset): nat {
    match m
    case Cash(token, _, _, amount) => if asset == Fungible(token) then amount else 0
    case Single(book, _, _, _, id, amount) => if asset == Position(book, id) then amount else 0
    case Batch(book, _, _, _, ids, amounts) =>
      if asset.Position? && asset.book == book then BatchAmount(ids, amounts, asset.id) else 0
    case Undecodable(_) => 0
  }

  function Read(log: Log, meter: Meter): nat {
    match log
    case Moved(m) =>
      if m.Undecodable? || meter.FeesCharged? || m.from == m.to then
        0
      else if meter.Inflow? then
        (if m.to == meter.who then Carried(m, meter.asset) else 0)
      else
        (if m.from == meter.who then Carried(m, meter.asset) else 0)
    case Noted(e) =>
      if e.FeeCharged? && meter.FeesCharged? then e.amount else 0
  }

  function Total(logs: seq<Log>, meter: Meter): nat {
    if logs == [] then
      0
    else
      Total(logs[..|logs| - 1], meter) + Read(logs[|logs| - 1], meter)
  }

  function Net(logs: seq<Log>, who: Address, asset: Asset): int {
    Total(logs, Inflow(who, asset)) - Total(logs, Outflow(who, asset))
  }

  /** What one log adds to the net of an account. */
  function Step(log: Log, who: Address, asset: Asset): int {
    if log.Moved? && !log.movement.Undecodable? then
      var m := log.movement;
      (if m.to == who then Carried(m, asset) else 0) - (if m.from == who then Carried(m, asset) else 0)
    else
      0
  }

  lemma TotalAppend(logs: seq<Log>, log: Log, meter: Meter)
    ensures Total(logs + [log], meter) == Total(logs, meter) + Read(log, meter)
  {
    assert (logs + [log])[..|logs|] == logs;
  }

  lemma {:induction false} TotalConcat(a: seq<Log>, b: seq<Log>, meter: Meter)
    ensures Total(a + b, meter) == Total(a, meter) + Total(b, meter)
  {
    if b == [] {
      assert a + b == a;
    } else {
      assert (a + b)[..|a + b| - 1] == a + b[..|b| - 1];
      TotalConcat(a, b[..|b| - 1], meter);
    }
  }

  lemma TotalOne(log: Log, meter: Meter)
    ensures Total([log], meter) == Read(log, meter)
  {
    assert [log][..0] == [];
  }

  /** The three laws of a meter, as facts to distribute over a literal list of logs. */
  lemma MeterLaws(meter: Meter)
    ensures Total([], meter) == 0
    ensures forall log {:trigger Total([log], meter)} :: Total([log], meter) == Read(log, meter)
    ensures forall a: seq<Log>, b: seq<Log> {:trigger Total(a + b, meter)} ::
              Total(a + b, meter) == Total(a, meter) + Total(b, meter)
  {
    forall log { TotalOne(log, meter); }
    forall a: seq<Log>, b: seq<Log> { TotalConcat(a, b, meter); }
  }

  lemma NetLaws(who: Address, asset: Asset)
    ensures Net([], who, asset) == 0
    ensures forall log {:trigger Net([log], who, asset)} :: Net([log], who, asset) == Step(log, who, asset)
    ensures forall a: seq<Log>, b: seq<Log> {:trigger Net(a + b, who, asset)} ::
              Net(a + b, who, asset) == Net(a, who, asset) + Net(b, who, asset)
  {
    MeterLaws(Inflow(who, asset));
    MeterLaws(Outflow(who, asset));
  }

  /** A part of a list never reads more than the whole. */
  lemma TotalPrefix(logs: seq<Log>, k: nat, meter: Meter)
    requires k <= |logs|
    ensures Total(logs[..k], meter) <= Total(logs, meter)
  {
    assert logs == logs[..k] + logs[k..];
    TotalConcat(logs[..k], logs[k..], meter);
  }
}
