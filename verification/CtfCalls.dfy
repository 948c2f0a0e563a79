/** The calls of the conditional-token contract: preparing, resolving, splitting, merging and
    redeeming. Every call has one encoding, and only that is decoded. */
module CtfCalls {
  import opened Words
  import opened Bytes

  const SPLIT: seq<Byte> := [0x72, 0xce, 0x42, 0x75]
  const MERGE: seq<Byte> := [0x9e, 0x72, 0x12, 0xad]
  const REDEEM: seq<Byte> := [0x01, 0xb7, 0x03, 0x7c]
  const PREPARE: seq<Byte> := [0xd9, 0x6e, 0xe7, 0x54]
  const REPORT_PAYOUTS: seq<Byte> := [0xc4, 0x92, 0x98, 0xac]

  const MAX_SETS: nat := 128
  const MAX_NUMERATORS: nat := 256

  datatype OperationCall =
    | Prepare(oracle: Address, question: Hash, count: U256)
    | Resolve(question: Hash, numerators: seq<U256>)
    | Split(collateral: Address, parent: Hash, condition: Hash, partition: seq<U256>, amount: U256)
    | Merge(collateral: Address, parent: Hash, condition: Hash, partition: seq<U256>, amount: U256)
    | Redeem(collateral: Address, parent: Hash, condition: Hash, sets: seq<U256>)

  /** The two slots of a binary condition, in either order. */
  predicate IsPartition(partition: seq<U256>) { partition == [1, 2] || partition == [2, 1] }

  predicate AreSlots(sets: seq<U256>) { forall slot :: slot in sets ==> slot == 1 || slot == 2 }

  /** A length within the limit and so many words, which end the bytes. */
  function DecodeWords(bytes: seq<Byte>, offset: nat, max: nat): (r: Option<seq<U256>>)
    ensures r.Some? ==> |r.value| <= max
  {
    var length :- WordAt(bytes, offset);
    if length >= TWO_64 || length > max || offset + 32 + 32 * length != |bytes| then None
    else Some(ReadWords(bytes, offset + 32, length))
  }

  /** The words are decoded exactly when they and their length end the bytes. */
  lemma DecodeWordsIs(bytes: seq<Byte>, offset: nat, max: nat, ws: seq<U256>)
    requires max < TWO_64
    ensures DecodeWords(bytes, offset, max) == Some(ws)
      <==> |ws| <= max && |bytes| == offset + 32 + 32 * |ws| && WordsAt(bytes, offset, [|ws| as nat] + ws)
  {
    hide WordAt, WordSpan;
    if |ws| <= max && |bytes| == offset + 32 + 32 * |ws| {
      var length: U256 := |ws|;
      WordsAtConcat(bytes, offset, [length], ws);
      WordsAtOne(bytes, offset, length);
      if WordsAt(bytes, offset, [length] + ws) { ReadWordsIs(bytes, offset + 32, ws); }
    }
  }

  function DecodeCall(input: seq<Byte>): Option<OperationCall> {
    if |input| < 4 then
      None
    else
      var selector, args := input[..4], input[4..];
      if selector == SPLIT || selector == MERGE then DecodeSet(selector == SPLIT, args)
      else if selector == REDEEM then DecodeRedeem(args)
      else if selector == PREPARE then DecodePrepare(args)
      else if selector == REPORT_PAYOUTS then DecodeResolve(args)
      else None
  }

  function DecodeSet(split: bool, args: seq<Byte>): Option<OperationCall> {
    if |args| < 192 || Word32(args, 96) != 160 || Word32(args, 0) >= AddressSpan() then
      None
    else
      var partition :- DecodeWords(args, 160, 2);
      if !IsPartition(partition) then None
      else if split then Some(Split(Word32(args, 0), Word32(args, 32), Word32(args, 64), partition, Word32(args, 128)))
      else Some(Merge(Word32(args, 0), Word32(args, 32), Word32(args, 64), partition, Word32(args, 128)))
  }

  function DecodeRedeem(args: seq<Byte>): Option<OperationCall> {
    if |args| < 160 || Word32(args, 96) != 128 || Word32(args, 0) >= AddressSpan() then
      None
    else
      var sets :- DecodeWords(args, 128, MAX_SETS);
      if !AreSlots(sets) then None else Some(Redeem(Word32(args, 0), Word32(args, 32), Word32(args, 64), sets))
  }

  function DecodePrepare(args: seq<Byte>): Option<OperationCall> {
    if |args| != 96 || Word32(args, 0) >= AddressSpan() then None
    else Some(Prepare(Word32(args, 0), Word32(args, 32), Word32(args, 64)))
  }

  function DecodeResolve(args: seq<Byte>): Option<OperationCall> {
    if |args| < 96 || Word32(args, 32) != 64 then
      None
    else
      var numerators :- DecodeWords(args, 64, MAX_NUMERATORS);
      Some(Resolve(Word32(args, 0), numerators))
  }

  // ----- the canonical encodings

  function Selector(call: OperationCall): (r: seq<Byte>)
    ensures |r| == 4
  {
    match call
    case Prepare(_, _, _) => PREPARE
    case Resolve(_, _) => REPORT_PAYOUTS
    case Split(_, _, _, _, _) => SPLIT
    case Merge(_, _, _, _, _) => MERGE
    case Redeem(_, _, _, _) => REDEEM
  }

  /** What a call can carry at all. */
  ghost predicate Encodable(call: OperationCall) {
    match call
    case Prepare(_, _, _) => true
    case Resolve(_, numerators) => |numerators| <= MAX_NUMERATORS
    case Split(_, _, _, partition, _) => IsPartition(partition)
    case Merge(_, _, _, partition, _) => IsPartition(partition)
    case Redeem(_, _, _, sets) => |sets| <= MAX_SETS && AreSlots(sets)
  }

  /** The fixed words of a call, then its list with the length before it. */
  ghost function Head(call: OperationCall): seq<U256> {
    match call
    case Prepare(oracle, question, count) => [oracle, question, count]
    case Resolve(question, _) => [question, 64]
    case Split(collateral, parent, condition, _, amount) => [collateral, parent, condition, 160, amount]
    case Merge(collateral, parent, condition, _, amount) => [collateral, parent, condition, 160, amount]
    case Redeem(collateral, parent, condition, _) => [collateral, parent, condition, 128]
  }

  ghost function Tail(call: OperationCall): seq<U256> {
    match call
    case Prepare(_, _, _) => []
    case Resolve(_, numerators) => numerators
    case Split(_, _, _, partition, _) => partition
    case Merge(_, _, _, partition, _) => partition
    case Redeem(_, _, _, sets) => sets
  }

  ghost function CallWords(call: OperationCall): seq<U256>
    requires Encodable(call)
  {
    if call.Prepare? then Head(call) else Head(call) + ([|Tail(call)|] + Tail(call))
  }

  ghost function EncodeCall(call: OperationCall): seq<Byte>
    requires Encodable(call)
  {
    Selector(call) + WriteWords(CallWords(call))
  }

  // ----- decoding inverts encoding

  ghost function MaxTail(call: OperationCall): nat {
    if call.Redeem? then MAX_SETS else if call.Resolve? then MAX_NUMERATORS else 2
  }

  /** Arguments read as a call when the head words and the list are where they must be. */
  lemma ArgumentsAre(args: seq<Byte>, call: OperationCall)
    requires Encodable(call) && !call.Prepare?
    ensures |args| == 32 * |CallWords(call)| && WordsAt(args, 0, CallWords(call))
      <==> 32 * |Head(call)| <= |args| && WordsAt(args, 0, Head(call))
           && DecodeWords(args, 32 * |Head(call)|, MaxTail(call)) == Some(Tail(call))
  {
    hide WordSpan, WordsAt, DecodeWords, WordAt, Head, Tail;
    HeadAndTail(call);
    DecodeWordsIs(args, 32 * |Head(call)|, MaxTail(call), Tail(call));
    WordsAtConcat(args, 0, Head(call), [|Tail(call)| as nat] + Tail(call));
  }

  lemma HeadAndTail(call: OperationCall)
    requires Encodable(call)
    ensures |Tail(call)| <= MaxTail(call) < TWO_64
    ensures 2 <= |Head(call)| <= 5
  {
  }

  /** The decoder of the arguments of a call of the same kind. */
  ghost function DecodeLike(call: OperationCall, args: seq<Byte>): Option<OperationCall> {
    match call
    case Prepare(_, _, _) => DecodePrepare(args)
    case Resolve(_, _) => DecodeResolve(args)
    case Split(_, _, _, _, _) => DecodeSet(true, args)
    case Merge(_, _, _, _, _) => DecodeSet(false, args)
    case Redeem(_, _, _, _) => DecodeRedeem(args)
  }

  /** The selector alone decides the kind of a decoded call. */
  lemma SelectorDecides(input: seq<Byte>, call: OperationCall)
    ensures DecodeCall(input) == Some(call)
      <==> |input| >= 4 && input[..4] == Selector(call) && DecodeLike(call, input[4..]) == Some(call)
  {
    hide WordSpan, AddressSpan, DecodeWords, Word32;
  }

  lemma ArgumentsRoundTrip(args: seq<Byte>, call: OperationCall)
    ensures DecodeLike(call, args) == Some(call)
      <==> Encodable(call) && |args| == 32 * |CallWords(call)| && WordsAt(args, 0, CallWords(call))
  {
    hide WordSpan, WordsAt, DecodeWords, Word32;
    if Encodable(call) {
      HeadAndTail(call);
      if !call.Prepare? { ArgumentsAre(args, call); }
      match call
      case Prepare(_, _, _) => RunIsWordByWord(args, 0, Head(call), 3);
      case Resolve(_, _) => RunIsWordByWord(args, 0, Head(call), 2);
      case Redeem(_, _, _, _) => RunIsWordByWord(args, 0, Head(call), 4);
      case _ => RunIsWordByWord(args, 0, Head(call), 5);
    }
  }

  lemma CallRoundTrip(input: seq<Byte>, call: OperationCall)
    ensures DecodeCall(input) == Some(call) <==> Encodable(call) && input == EncodeCall(call)
  {
    hide WordSpan, WordsAt, WriteWords, DecodeCall, DecodeLike, Encodable, CallWords, Selector;
    SelectorDecides(input, call);
    if |input| >= 4 {
      ArgumentsRoundTrip(input[4..], call);
    }
    if Encodable(call) {
      ReadsAs(input, Selector(call), CallWords(call));
    }
  }
}
