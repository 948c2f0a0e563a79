/** The direct calls of the module and the transfers that fund them. Each form has one fixed
    width, so a call parses exactly when the bytes are its one encoding. */
module ModuleCalls {
  import opened Words
  import opened Bytes

  const SPLIT: seq<Byte> := [0x2d, 0x20, 0xcf, 0xfd]
  const MERGE: seq<Byte> := [0x1d, 0x47, 0x9a, 0x82]
  const REDEEM: seq<Byte> := [0x2b, 0x83, 0xcc, 0xcd]
  const PUSD_TRANSFER: seq<Byte> := [0xa9, 0x05, 0x9c, 0xbb]
  const SAFE_TRANSFER_FROM: seq<Byte> := [0xf2, 0x42, 0x43, 0x2a]

  datatype ModuleCall = Split(amount: U256) | Merge(amount: U256) | Redeem(id: U256, amount: U256)
  datatype FundingCall = FundPusd(amount: U256) | FundPosition(id: U256, amount: U256)

  /** Whom and what the calls must name. */
  datatype Parties = Parties(owner: Address, module_: Address, condition: Hash, idA: U256, idB: U256) {
    predicate Lists(id: U256) { id == idA || id == idB }
  }

  function ParseModuleCall(input: seq<Byte>, p: Parties): Option<ModuleCall> {
    if |input| < 4 then
      None
    else
      var args := input[4..];
      if input[..4] == SPLIT then ParseSplit(args, p)
      else if input[..4] == MERGE then ParseMerge(args, p)
      else if input[..4] == REDEEM then ParseRedeem(args, p)
      else None
  }

  function ParseSplit(args: seq<Byte>, p: Parties): Option<ModuleCall> {
    if |args| != 192 || Word32(args, 0) != 96 || Word32(args, 64) == 0 then
      None
    else if p.condition % 256 != 0 || Word32(args, 32) != p.condition || Word32(args, 96) != 2
            || Word32(args, 128) != p.owner || Word32(args, 160) != p.owner then
      None
    else
      Some(Split(Word32(args, 64)))
  }

  function ParseMerge(args: seq<Byte>, p: Parties): Option<ModuleCall> {
    if |args| != 96 || Word32(args, 0) != p.owner || Word32(args, 32) != p.condition || p.condition % 256 != 0 then
      None
    else if Word32(args, 64) == 0 then
      None
    else
      Some(Merge(Word32(args, 64)))
  }

  function ParseRedeem(args: seq<Byte>, p: Parties): Option<ModuleCall> {
    if |args| != 96 || Word32(args, 0) != p.owner then
      None
    else if !p.Lists(Word32(args, 32)) || Word32(args, 64) == 0 then
      None
    else
      Some(Redeem(Word32(args, 32), Word32(args, 64)))
  }

  function ParsePusdFunding(input: seq<Byte>, p: Parties): Option<FundingCall> {
    if |input| != 68 || input[..4] != PUSD_TRANSFER then
      None
    else
      var args := input[4..];
      if Word32(args, 0) != p.module_ || Word32(args, 32) == 0 then None else Some(FundPusd(Word32(args, 32)))
  }

  function ParsePositionFunding(input: seq<Byte>, p: Parties): Option<FundingCall> {
    if |input| != 4 + 6 * 32 || input[..4] != SAFE_TRANSFER_FROM then
      None
    else
      var args := input[4..];
      if Word32(args, 0) != p.owner || Word32(args, 32) != p.module_ || Word32(args, 128) != 160
         || Word32(args, 160) != 0 then
        None
      else if !p.Lists(Word32(args, 64)) || Word32(args, 96) == 0 then
        None
      else
        Some(FundPosition(Word32(args, 64), Word32(args, 96)))
  }

  // ----- the canonical encodings

  function ModuleWords(call: ModuleCall, p: Parties): seq<U256> {
    match call
    case Split(amount) => [96, p.condition, amount, 2, p.owner, p.owner]
    case Merge(amount) => [p.owner, p.condition, amount]
    case Redeem(id, amount) => [p.owner, id, amount]
  }

  function ModuleSelector(call: ModuleCall): (r: seq<Byte>)
    ensures |r| == 4
  {
    match call case Split(_) => SPLIT case Merge(_) => MERGE case Redeem(_, _) => REDEEM
  }

  function EncodeModuleCall(call: ModuleCall, p: Parties): seq<Byte> {
    ModuleSelector(call) + WriteWords(ModuleWords(call, p))
  }

  /** The calls that the module can be asked for. */
  predicate Callable(call: ModuleCall, p: Parties) {
    && call.amount > 0
    && (if call.Redeem? then p.Lists(call.id) else p.condition % 256 == 0)
  }

  function FundingWords(call: FundingCall, p: Parties): seq<U256> {
    match call
    case FundPusd(amount) => [p.module_, amount]
    case FundPosition(id, amount) => [p.owner, p.module_, id, amount, 160, 0]
  }

  function EncodeFunding(call: FundingCall, p: Parties): seq<Byte> {
    (if call.FundPusd? then PUSD_TRANSFER else SAFE_TRANSFER_FROM) + WriteWords(FundingWords(call, p))
  }

  predicate Fundable(call: FundingCall, p: Parties) {
    call.amount > 0 && (call.FundPosition? ==> p.Lists(call.id))
  }

  // ----- parsing inverts encoding

  /** A call is parsed exactly from its one encoding; so what parses re-encodes to itself. */
  lemma ModuleCallRoundTrip(input: seq<Byte>, call: ModuleCall, p: Parties)
    ensures ParseModuleCall(input, p) == Some(call) <==> Callable(call, p) && input == EncodeModuleCall(call, p)
  {
    hide WordSpan, Word32, WordsAt, WriteWords;
    var ws := ModuleWords(call, p);
    ReadsAs(input, ModuleSelector(call), ws);
    if |input| >= 4 && |input[4..]| == 32 * |ws| {
      match call
      case Split(_) => RunIsWordByWord(input[4..], 0, ws, 6);
      case _ => RunIsWordByWord(input[4..], 0, ws, 3);
    }
  }

  lemma PusdFundingRoundTrip(input: seq<Byte>, call: FundingCall, p: Parties)
    ensures ParsePusdFunding(input, p) == Some(call)
      <==> call.FundPusd? && Fundable(call, p) && input == EncodeFunding(call, p)
  {
    hide WordSpan, Word32, WordsAt, WriteWords;
    if call.FundPusd? {
      var ws := FundingWords(call, p);
      ReadsAs(input, PUSD_TRANSFER, ws);
      if |input| == 68 {
        RunIsWordByWord(input[4..], 0, ws, 2);
      }
    }
  }

  lemma PositionFundingRoundTrip(input: seq<Byte>, call: FundingCall, p: Parties)
    ensures ParsePositionFunding(input, p) == Some(call)
      <==> call.FundPosition? && Fundable(call, p) && input == EncodeFunding(call, p)
  {
    hide WordSpan, Word32, WordsAt, WriteWords;
    if call.FundPosition? {
      var ws := FundingWords(call, p);
      ReadsAs(input, SAFE_TRANSFER_FROM, ws);
      if |input| == 4 + 6 * 32 { RunIsWordByWord(input[4..], 0, ws, 6); }
    }
  }
}
