/** The strict decoder of matchOrders calldata, and the canonical encoder that it inverts. */
module MatchCodec {
  import opened Words
  import opened Ledger
  import opened MatchCall
  import opened Bytes

  const SELECTOR: seq<Byte> := [0x0f, 0xb2, 0x5b, 0xa4]
  const MAX_MAKERS: nat := 128
  const MAX_SIGNATURE_BYTES: nat := 2_048
  const MAX_CALLDATA_BYTES: nat := 262_144
  const TOP_HEAD_BYTES: nat := 224
  const ORDER_HEAD_BYTES: nat := 384
  /** A head, a length and the longest signature. */
  const MAX_ORDER_BYTES: nat := 2_464

  // ----- the decoder

  function WordUsize(data: seq<Byte>, offset: nat): Option<U64> {
    var w :- WordAt(data, offset);
    if w < TWO_64 then Some(w) else None
  }

  function WordAddress(data: seq<Byte>, offset: nat): Option<Address> {
    var w :- WordAt(data, offset);
    if w < AddressSpan() then Some(w) else None
  }

  /** An address is read exactly from a word that starts with twelve zero bytes, and it is the
      number that the other twenty bytes write. */
  lemma AddressIsTwentyBytes(data: seq<Byte>, offset: nat)
    ensures WordAddress(data, offset).Some?
      <==> offset + 32 <= |data| && data[offset..offset + 12] == Zeros(12)
    ensures WordAddress(data, offset).Some? ==>
      WordAddress(data, offset).value == FromBytes(data[offset + 12..offset + 32])
  {
    hide WordSpan, Zeros;
    if offset + 32 <= |data| {
      var word := data[offset..offset + 32];
      AddressWord(word);
      assert word[..12] == data[offset..offset + 12] && word[12..] == data[offset + 12..offset + 32];
      if word[..12] == Zeros(12) {
        assert word == Zeros(12) + word[12..];
        LeadingZeros(12, word[12..]);
      }
    }
  }

  function SideOf(w: U256): Option<TradeSide> {
    if w == 0 then Some(Buy) else if w == 1 then Some(Sell) else None
  }

  function SignatureTypeOf(w: U256): Option<SignatureType> {
    match w
    case 0 => Some(Eoa)
    case 1 => Some(PolyProxy)
    case 2 => Some(PolyGnosisSafe)
    case 3 => Some(Poly1271)
    case _ => None
  }

  function Padded(length: nat): (r: nat)
    ensures length <= r < length + 32 && r % 32 == 0
  {
    (length + 31) / 32 * 32
  }

  lemma PaddedAtMost(length: nat)
    requires length <= MAX_SIGNATURE_BYTES
    ensures Padded(length) <= MAX_SIGNATURE_BYTES
  {
  }

  /** An order tuple at `start`, with the offset just past it. */
  function DecodeOrder(args: seq<Byte>, start: nat): (r: Option<(MatchOrder, nat)>)
    ensures r.Some? ==> start < r.value.1
  {
    var headEnd := start + ORDER_HEAD_BYTES;
    if headEnd > |args| || WordUsize(args, start + 11 * 32) != Some(ORDER_HEAD_BYTES) then
      None
    else
      // The head is inside the data, so only an address, a side or a type can be refused here.
      var salt := Word32(args, start);
      var maker :- WordAddress(args, start + 32);
      var signer :- WordAddress(args, start + 2 * 32);
      var tokenId := Word32(args, start + 3 * 32);
      var makerAmount := Word32(args, start + 4 * 32);
      var takerAmount := Word32(args, start + 5 * 32);
      var sideWord := Word32(args, start + 6 * 32);
      var side :- SideOf(sideWord);
      var typeWord := Word32(args, start + 7 * 32);
      var signatureType :- SignatureTypeOf(typeWord);
      var timestamp := Word32(args, start + 8 * 32);
      var metadata := Word32(args, start + 9 * 32);
      var builder := Word32(args, start + 10 * 32);
      var length :- WordUsize(args, headEnd);
      if length > MAX_SIGNATURE_BYTES then
        None
      else
        var signatureStart := headEnd + 32;
        var end := signatureStart + Padded(length);
        if end > |args| || args[signatureStart + length..end] != Zeros(Padded(length) - length) then
          None
        else
          Some((MatchOrder(salt, maker, signer, tokenId, makerAmount, takerAmount, side, signatureType, timestamp,
                           metadata, builder, args[signatureStart..signatureStart + length]), end))
  }

  // ----- the encoder

  function SideWord(side: TradeSide): U256 { if side == Buy then 0 else 1 }

  function SignatureTypeWord(t: SignatureType): U256 {
    match t case Eoa => 0 case PolyProxy => 1 case PolyGnosisSafe => 2 case Poly1271 => 3
  }

  predicate SignatureFits(o: MatchOrder) { |o.signature| <= MAX_SIGNATURE_BYTES }

  function OrderWords(o: MatchOrder): (r: seq<U256>)
    requires SignatureFits(o)
    ensures |r| == 13
  {
    [o.salt, o.maker, o.signer, o.tokenId, o.makerAmount, o.takerAmount, SideWord(o.side),
     SignatureTypeWord(o.signatureType), o.timestamp, o.metadata, o.builder, ORDER_HEAD_BYTES, |o.signature|]
  }

  function EncodeOrder(o: MatchOrder): (r: seq<Byte>)
    requires SignatureFits(o)
    ensures ORDER_HEAD_BYTES < |r| <= MAX_ORDER_BYTES
  {
    PaddedAtMost(|o.signature|);
    WriteWords(OrderWords(o)) + o.signature + Zeros(Padded(|o.signature|) - |o.signature|)
  }

  lemma WordsAddUp(a: nat, b: nat)
    requires a % 32 == 0 && b % 32 == 0
    ensures (a + b) % 32 == 0
  {
  }

  /** A tuple fills whole words. */
  lemma EncodedSize(o: MatchOrder)
    requires SignatureFits(o)
    ensures |EncodeOrder(o)| == ORDER_HEAD_BYTES + 32 + Padded(|o.signature|) && |EncodeOrder(o)| % 32 == 0
  {
    hide WordSpan, Padded, WriteWords, OrderWords;
    WordsAddUp(ORDER_HEAD_BYTES + 32, Padded(|o.signature|));
  }

  // ----- the tuple decoder inverts the tuple encoder

  ghost predicate SliceIs(data: seq<Byte>, start: nat, end: nat, bytes: seq<Byte>) {
    start <= end <= |data| && data[start..end] == bytes
  }

  /** The encoding of an order occupies a slice exactly when its words, signature and padding do. */
  lemma EncodedOrderAt(args: seq<Byte>, start: nat, end: nat, o: MatchOrder)
    requires SignatureFits(o) && start + ORDER_HEAD_BYTES + 32 <= |args|
    ensures SliceIs(args, start, end, EncodeOrder(o)) <==>
      var s, n := start + ORDER_HEAD_BYTES + 32, |o.signature|;
      && end == s + Padded(n) && end <= |args| && WordsAt(args, start, OrderWords(o))
      && args[s..s + n] == o.signature && args[s + n..end] == Zeros(Padded(n) - n)
  {
    hide WordsAt, WriteWords, Zeros, OrderWords;
    var s, n := start + ORDER_HEAD_BYTES + 32, |o.signature|;
    WordsAtIsSlice(args, start, OrderWords(o));
    if end == s + Padded(n) && end <= |args| {
      SliceOfTwo(args, start, s + n, end, WriteWords(OrderWords(o)) + o.signature, Zeros(Padded(n) - n));
      SliceOfTwo(args, start, s, s + n, WriteWords(OrderWords(o)), o.signature);
    }
  }

  lemma OrderWordsAt(args: seq<Byte>, start: nat, o: MatchOrder)
    requires SignatureFits(o)
    ensures WordsAt(args, start, OrderWords(o)) <==>
      && WordAt(args, start) == Some(o.salt) && WordAt(args, start + 32) == Some(o.maker)
      && WordAt(args, start + 2 * 32) == Some(o.signer) && WordAt(args, start + 3 * 32) == Some(o.tokenId)
      && WordAt(args, start + 4 * 32) == Some(o.makerAmount) && WordAt(args, start + 5 * 32) == Some(o.takerAmount)
      && WordAt(args, start + 6 * 32) == Some(SideWord(o.side))
      && WordAt(args, start + 7 * 32) == Some(SignatureTypeWord(o.signatureType))
      && WordAt(args, start + 8 * 32) == Some(o.timestamp) && WordAt(args, start + 9 * 32) == Some(o.metadata)
      && WordAt(args, start + 10 * 32) == Some(o.builder) && WordAt(args, start + 11 * 32) == Some(ORDER_HEAD_BYTES)
      && WordAt(args, start + 12 * 32) == Some(|o.signature|)
  {
    hide WordAt, WordsAt, SideWord, SignatureTypeWord, OrderWords;
    OrderWordsAre(o);
    RunIsWordByWord(args, start, OrderWords(o), 13);
  }

  lemma OrderWordsAre(o: MatchOrder)
    requires SignatureFits(o)
    ensures var ws := OrderWords(o);
      && ws[0] == o.salt && ws[1] == o.maker && ws[2] == o.signer && ws[3] == o.tokenId && ws[4] == o.makerAmount
      && ws[5] == o.takerAmount && ws[6] == SideWord(o.side) && ws[7] == SignatureTypeWord(o.signatureType)
      && ws[8] == o.timestamp && ws[9] == o.metadata && ws[10] == o.builder && ws[11] == ORDER_HEAD_BYTES
      && ws[12] == |o.signature|
  {
    hide SideWord, SignatureTypeWord, WordSpan;
  }

  /** Decoding an order at `start` succeeds with o and end exactly when o's encoding lies there. */
  lemma OrderRoundTrip(args: seq<Byte>, start: nat, o: MatchOrder, end: nat)
    ensures DecodeOrder(args, start) == Some((o, end))
      <==> SignatureFits(o) && SliceIs(args, start, end, EncodeOrder(o))
  {
    hide Word32, Zeros, WordSpan, AddressSpan, EncodeOrder, Padded, WordsAt, SliceIs;
    if SignatureFits(o) && start + ORDER_HEAD_BYTES + 32 <= |args| {
      EncodedOrderAt(args, start, end, o);
      OrderWordsAt(args, start, o);
    } else if SignatureFits(o) {
      OrderTooLong(args, start, o, end);
    }
  }

  lemma OrderTooLong(args: seq<Byte>, start: nat, o: MatchOrder, end: nat)
    requires SignatureFits(o) && start + ORDER_HEAD_BYTES + 32 > |args|
    ensures !SliceIs(args, start, end, EncodeOrder(o))
  {
  }

  // ----- arrays of words

  function DecodeWordArray(args: seq<Byte>, start: nat, expectedCount: nat): Option<(seq<U256>, nat)> {
    var count :- WordUsize(args, start);
    if count != expectedCount || count > MAX_MAKERS then
      None
    else
      var end := start + 32 + 32 * count;
      if end > |args| then None else Some((ReadWords(args, start + 32, count), end))
  }

  function EncodeWordArray(ws: seq<U256>): (r: seq<Byte>)
    requires |ws| <= MAX_MAKERS
    ensures |r| == 32 + 32 * |ws|
  {
    WordBytes(|ws|) + WriteWords(ws)
  }

  lemma SameWords(data: seq<Byte>, start: nat, a: seq<U256>, b: seq<U256>)
    requires |a| == |b| && WordsAt(data, start, a) && WordsAt(data, start, b)
    ensures a == b
  {
    assert forall i :: 0 <= i < |a| ==> WordAt(data, start + 32 * i) == Some(a[i]) == Some(b[i]);
  }

  lemma WordArrayRoundTrip(args: seq<Byte>, start: nat, expectedCount: nat, ws: seq<U256>, end: nat)
    ensures DecodeWordArray(args, start, expectedCount) == Some((ws, end))
      <==> |ws| == expectedCount <= MAX_MAKERS && SliceIs(args, start, end, EncodeWordArray(ws))
  {
    hide WordsAt, WordBytes, WordSpan, WriteWords, Word32;
    var n := |ws|;
    if start + 32 + 32 * n <= |args| && n <= MAX_MAKERS {
      WordAtIsSlice(args, start, n);
      WordsAtIsSlice(args, start + 32, ws);
      SliceOfTwo(args, start, start + 32, start + 32 + 32 * n, WordBytes(n), WriteWords(ws));
      if WordsAt(args, start + 32, ws) {
        SameWords(args, start + 32, ws, ReadWords(args, start + 32, n));
      }
    }
  }

  // ----- arrays of orders

  ghost predicate SignaturesFit(orders: seq<MatchOrder>) {
    forall i :: 0 <= i < |orders| ==> SignatureFits(orders[i])
  }

  /** Decodes the orders from `index` on; each head word must point at the running cursor. */
  function DecodeOrders(args: seq<Byte>, headsStart: nat, index: nat, count: nat, cursor: nat)
    : (r: Option<(seq<MatchOrder>, nat)>)
    requires index <= count && headsStart <= cursor
    ensures r.Some? ==> |r.value.0| == count - index
    decreases count - index
  {
    if index == count then
      Some(([], cursor))
    else
      var relative :- WordUsize(args, headsStart + 32 * index);
      if relative != cursor - headsStart then
        None
      else
        var (order, next) :- DecodeOrder(args, cursor);
        var (rest, end) :- DecodeOrders(args, headsStart, index + 1, count, next);
        Some(([order] + rest, end))
  }

  function DecodeOrderArray(args: seq<Byte>, start: nat): Option<(seq<MatchOrder>, nat)> {
    var count :- WordUsize(args, start);
    if !(1 <= count <= MAX_MAKERS) then
      None
    else
      var headsStart := start + 32;
      var cursor := headsStart + 32 * count;
      if cursor > |args| then None else DecodeOrders(args, headsStart, 0, count, cursor)
  }

  function Tails(orders: seq<MatchOrder>): (r: seq<Byte>)
    requires SignaturesFit(orders)
    ensures |r| <= MAX_ORDER_BYTES * |orders|
  {
    if orders == [] then
      []
    else
      hide EncodeOrder, Padded, WordSpan;
      EncodeOrder(orders[0]) + Tails(orders[1..])
  }

  /** The head words: where each tail starts, counted from the first head. */
  function Offsets(orders: seq<MatchOrder>, first: nat): (r: seq<U256>)
    requires SignaturesFit(orders) && first + MAX_ORDER_BYTES * |orders| < TWO_64
    ensures |r| == |orders|
  {
    if orders == [] then
      []
    else
      hide EncodeOrder, Padded, WordSpan;
      [first] + Offsets(orders[1..], first + |EncodeOrder(orders[0])|)
  }

  function EncodeOrderArray(orders: seq<MatchOrder>): (r: seq<Byte>)
    requires SignaturesFit(orders) && |orders| <= MAX_MAKERS
    ensures |r| <= 32 + 32 * MAX_MAKERS + MAX_ORDER_BYTES * MAX_MAKERS
  {
    hide Tails, Offsets, WordSpan;
    WordBytes(|orders|) + WriteWords(Offsets(orders, 32 * |orders|)) + Tails(orders)
  }

  lemma WordsAtHead(data: seq<Byte>, start: nat, w: U256, rest: seq<U256>)
    ensures WordsAt(data, start, [w] + rest) <==> WordAt(data, start) == Some(w) && WordsAt(data, start + 32, rest)
  {
    hide WordAt;
    var ws := [w] + rest;
    if WordsAt(data, start, ws) {
      assert WordAt(data, start + 32 * 0) == Some(ws[0]);
      forall i | 0 <= i < |rest|
        ensures WordAt(data, start + 32 + 32 * i) == Some(rest[i])
      {
        assert WordAt(data, start + 32 * (i + 1)) == Some(ws[i + 1]);
      }
    }
    if WordAt(data, start) == Some(w) && WordsAt(data, start + 32, rest) {
      forall i | 0 <= i < |ws|
        ensures WordAt(data, start + 32 * i) == Some(ws[i])
      {
        if i > 0 {
          assert WordAt(data, start + 32 + 32 * (i - 1)) == Some(rest[i - 1]);
        }
      }
    }
  }

  /** What it means for a list of orders to lie in the data with its heads and tails. */
  ghost predicate OrdersAt(args: seq<Byte>, headsStart: nat, index: nat, cursor: nat,
                           orders: seq<MatchOrder>, end: nat)
    requires headsStart <= cursor
  {
    && SignaturesFit(orders) && cursor - headsStart + MAX_ORDER_BYTES * |orders| < TWO_64
    && WordsAt(args, headsStart + 32 * index, Offsets(orders, cursor - headsStart))
    && SliceIs(args, cursor, end, Tails(orders))
  }

  /** Taking the first order off a list that lies in the data. */
  lemma OrdersAtHead(args: seq<Byte>, headsStart: nat, index: nat, cursor: nat, order: MatchOrder,
                     rest: seq<MatchOrder>, end: nat)
    requires headsStart <= cursor && SignatureFits(order)
    requires cursor - headsStart + MAX_ORDER_BYTES * (|rest| + 1) < TWO_64
    ensures OrdersAt(args, headsStart, index, cursor, [order] + rest, end) <==>
      var next := cursor + |EncodeOrder(order)|;
      && WordAt(args, headsStart + 32 * index) == Some(cursor - headsStart)
      && SliceIs(args, cursor, next, EncodeOrder(order)) && OrdersAt(args, headsStart, index + 1, next, rest, end)
  {
    hide EncodeOrder, WordsAt, WordAt, WordSpan;
    var orders, next := [order] + rest, cursor + |EncodeOrder(order)|;
    assert orders[1..] == rest;
    assert SignaturesFit(rest) <==> SignaturesFit(orders) by {
      if SignaturesFit(orders) {
        assert forall i :: 0 <= i < |rest| ==> rest[i] == orders[i + 1];
      }
    }
    if SignaturesFit(rest) {
      WordsAtHead(args, headsStart + 32 * index, cursor - headsStart, Offsets(rest, next - headsStart));
      if next <= end <= |args| && |Tails(rest)| == end - next {
        SliceOfTwo(args, cursor, next, end, EncodeOrder(order), Tails(rest));
      }
    }
  }

  lemma {:induction false} OrdersRoundTrip(args: seq<Byte>, headsStart: nat, index: nat, count: nat, cursor: nat,
                                           orders: seq<MatchOrder>, end: nat)
    requires index <= count <= MAX_MAKERS && headsStart <= cursor <= |args| <= MAX_CALLDATA_BYTES
    ensures DecodeOrders(args, headsStart, index, count, cursor) == Some((orders, end))
      <==> |orders| == count - index && OrdersAt(args, headsStart, index, cursor, orders, end)
    decreases count - index
  {
    hide DecodeOrder, DecodeOrders, EncodeOrder, OrdersAt, WordUsize, WordAt, SliceIs, SignatureFits, WordSpan;
    if index == count {
      NoOrdersAt(args, headsStart, index, cursor, end);
    } else if orders != [] {
      var order, rest := orders[0], orders[1..];
      assert orders == [order] + rest;
      FirstOrder(args, cursor, order);
      NextOrder(args, headsStart, index, count, cursor, order, rest, end);
      UsizeIsWord(args, headsStart + 32 * index, cursor - headsStart);
      if SignatureFits(order) && |orders| == count - index {
        var next := cursor + |EncodeOrder(order)|;
        OrdersAtHead(args, headsStart, index, cursor, order, rest, end);
        if SliceIs(args, cursor, next, EncodeOrder(order)) {
          OrdersRoundTrip(args, headsStart, index + 1, count, next, rest, end);
        }
      } else if !SignatureFits(order) {
        UnfitOrders(args, headsStart, index, cursor, orders, end);
      }
    }
  }

  /** An order is decoded first exactly when its encoding lies at the cursor. */
  lemma FirstOrder(args: seq<Byte>, cursor: nat, order: MatchOrder)
    ensures DecodeOrder(args, cursor).Some? && DecodeOrder(args, cursor).value.0 == order
      <==> SignatureFits(order) && SliceIs(args, cursor, cursor + |EncodeOrder(order)|, EncodeOrder(order))
    ensures DecodeOrder(args, cursor).Some? && DecodeOrder(args, cursor).value.0 == order ==>
      DecodeOrder(args, cursor).value.1 == cursor + |EncodeOrder(order)| <= |args|
  {
    hide DecodeOrder, EncodeOrder, WordSpan, SignatureFits;
    var decoded := DecodeOrder(args, cursor);
    if decoded.Some? {
      OrderRoundTrip(args, cursor, decoded.value.0, decoded.value.1);
    }
    if SignatureFits(order) {
      OrderRoundTrip(args, cursor, order, cursor + |EncodeOrder(order)|);
    }
  }

  lemma UsizeIsWord(data: seq<Byte>, offset: nat, n: U64)
    ensures WordUsize(data, offset) == Some(n) <==> WordAt(data, offset) == Some(n)
  {
    hide WordSpan;
  }

  lemma NextOrder(args: seq<Byte>, headsStart: nat, index: nat, count: nat, cursor: nat, order: MatchOrder,
                  rest: seq<MatchOrder>, end: nat)
    requires index < count && headsStart <= cursor
    ensures DecodeOrders(args, headsStart, index, count, cursor) == Some(([order] + rest, end)) <==>
      var first := DecodeOrder(args, cursor);
      && WordUsize(args, headsStart + 32 * index) == Some(cursor - headsStart)
      && first.Some? && first.value.0 == order
      && DecodeOrders(args, headsStart, index + 1, count, first.value.1) == Some((rest, end))
  {
    hide DecodeOrder, WordUsize, WordSpan;
    var first := DecodeOrder(args, cursor);
    if first.Some? {
      var more := DecodeOrders(args, headsStart, index + 1, count, first.value.1);
      if more.Some? {
        assert ([first.value.0] + more.value.0)[1..] == more.value.0 && ([order] + rest)[1..] == rest;
        assert ([first.value.0] + more.value.0)[0] == first.value.0 && ([order] + rest)[0] == order;
      }
    }
  }

  lemma UnfitOrders(args: seq<Byte>, headsStart: nat, index: nat, cursor: nat, orders: seq<MatchOrder>, end: nat)
    requires headsStart <= cursor && !SignaturesFit(orders)
    ensures !OrdersAt(args, headsStart, index, cursor, orders, end)
  {
  }

  lemma SliceInside(data: seq<Byte>, start: nat, end: nat, bytes: seq<Byte>)
    requires SliceIs(data, start, end, bytes)
    ensures start + |bytes| == end <= |data|
  {
  }

  lemma NoOrdersAt(args: seq<Byte>, headsStart: nat, index: nat, cursor: nat, end: nat)
    requires headsStart <= cursor <= |args| <= MAX_CALLDATA_BYTES
    ensures OrdersAt(args, headsStart, index, cursor, [], end) <==> end == cursor
    ensures DecodeOrders(args, headsStart, index, index, cursor) == Some(([], cursor))
  {
  }

  lemma OrderArrayRoundTrip(args: seq<Byte>, start: nat, orders: seq<MatchOrder>, end: nat)
    requires |args| <= MAX_CALLDATA_BYTES
    ensures DecodeOrderArray(args, start) == Some((orders, end))
      <==> 1 <= |orders| <= MAX_MAKERS && SignaturesFit(orders) && SliceIs(args, start, end, EncodeOrderArray(orders))
  {
    hide DecodeOrders, WordsAt, WordSpan, EncodeOrder, Tails, Offsets, SliceIs, EncodeOrderArray, OrdersAt;
    hide SignaturesFit, Word32;
    var n := |orders|;
    if !SignaturesFit(orders) && start + 32 + 32 * n <= |args| {
      UnfitOrders(args, start + 32, 0, start + 32 + 32 * n, orders, end);
    }
    if start + 32 + 32 * n <= |args| && 1 <= n <= MAX_MAKERS {
      OrdersRoundTrip(args, start + 32, 0, n, start + 32 + 32 * n, orders, end);
      if SignaturesFit(orders) {
        OrderArrayAt(args, start, orders, end);
      }
    } else if 1 <= n <= MAX_MAKERS && SignaturesFit(orders) {
      OrderArrayTooLong(args, start, orders, end);
    }
  }

  lemma OrderArrayTooLong(args: seq<Byte>, start: nat, orders: seq<MatchOrder>, end: nat)
    requires SignaturesFit(orders) && 1 <= |orders| <= MAX_MAKERS && start + 32 + 32 * |orders| > |args|
    ensures !SliceIs(args, start, end, EncodeOrderArray(orders))
  {
    hide Tails, Offsets;
  }

  /** An order array lies in the data exactly when its count, its heads and its tails do. */
  lemma OrderArrayAt(args: seq<Byte>, start: nat, orders: seq<MatchOrder>, end: nat)
    requires SignaturesFit(orders) && 1 <= |orders| <= MAX_MAKERS && start + 32 + 32 * |orders| <= |args|
    ensures SliceIs(args, start, end, EncodeOrderArray(orders)) <==>
      WordAt(args, start) == Some(|orders|) && OrdersAt(args, start + 32, 0, start + 32 + 32 * |orders|, orders, end)
  {
    hide WordsAt, WordAt, WordSpan, Tails, Offsets, WordBytes, WriteWords;
    var n := |orders|;
    var tails := start + 32 + 32 * n;
    var heads := WriteWords(Offsets(orders, 32 * n));
    WordAtIsSlice(args, start, n);
    WordsAtIsSlice(args, start + 32, Offsets(orders, 32 * n));
    SliceOfTwo(args, start, start + 32, tails, WordBytes(n), heads);
    if tails <= end <= |args| && |Tails(orders)| == end - tails {
      SliceOfTwo(args, start, tails, end, WordBytes(n) + heads, Tails(orders));
    }
  }

  // ----- the whole call

  /** The decoder of matchOrders calldata. */
  function DecodeCall(input: seq<Byte>): (r: Option<MatchOrdersCall>)
    ensures r.Some? ==> r.value.Aligned()
  {
    if |input| > MAX_CALLDATA_BYTES || |input| < 4 + TOP_HEAD_BYTES || input[..4] != SELECTOR then
      None
    else
      var args := input[4..];
      if |args| % 32 != 0 || WordUsize(args, 0) != Some(TOP_HEAD_BYTES) then
        None
      else
        var makersOffset :- WordUsize(args, 32);
        var fillsOffset :- WordUsize(args, 64);
        var feesOffset :- WordUsize(args, 96);
        var amounts := TakerAmounts(Word32(args, 128), Word32(args, 160), Word32(args, 192));
        var (taker, takerEnd) :- DecodeOrder(args, TOP_HEAD_BYTES);
        if makersOffset != takerEnd then
          None
        else
          var (makers, makersEnd) :- DecodeOrderArray(args, makersOffset);
          if fillsOffset != makersEnd then
            None
          else
            var (fills, fillsEnd) :- DecodeWordArray(args, fillsOffset, |makers|);
            if feesOffset != fillsEnd then
              None
            else
              var (fees, feesEnd) :- DecodeWordArray(args, feesOffset, |makers|);
              if feesEnd != |args| then None else Some(MatchOrdersCall(taker, makers, fills, fees, amounts))
  }

  ghost predicate Encodable(c: MatchOrdersCall) {
    && c.Aligned() && 1 <= |c.makerOrders| <= MAX_MAKERS
    && SignatureFits(c.takerOrder) && SignaturesFit(c.makerOrders)
  }

  /** The offsets of the four dynamic arguments and the end of the arguments. */
  function MakersOffset(c: MatchOrdersCall): (r: U64)
    requires Encodable(c)
    ensures r >= TOP_HEAD_BYTES
  {
    TOP_HEAD_BYTES + |EncodeOrder(c.takerOrder)|
  }

  function FillsOffset(c: MatchOrdersCall): (r: U64)
    requires Encodable(c)
  {
    hide EncodeOrderArray, EncodeOrder, WordSpan, Padded;
    MakersOffset(c) + |EncodeOrderArray(c.makerOrders)|
  }

  function FeesOffset(c: MatchOrdersCall): (r: U64)
    requires Encodable(c)
  {
    hide EncodeOrderArray, EncodeOrder, EncodeWordArray, WordSpan, Padded;
    FillsOffset(c) + |EncodeWordArray(c.makerFills)|
  }

  function HeadWords(c: MatchOrdersCall): (r: seq<U256>)
    requires Encodable(c)
    ensures |r| == 7
  {
    hide MakersOffset, FillsOffset, FeesOffset;
    [TOP_HEAD_BYTES, MakersOffset(c), FillsOffset(c), FeesOffset(c),
     c.takerAmounts.fill, c.takerAmounts.receive, c.takerAmounts.fee]
  }

  function EncodeArgs(c: MatchOrdersCall): seq<Byte>
    requires Encodable(c)
  {
    WriteWords(HeadWords(c)) + EncodeOrder(c.takerOrder) + EncodeOrderArray(c.makerOrders)
    + EncodeWordArray(c.makerFills) + EncodeWordArray(c.makerFees)
  }

  function EncodeCall(c: MatchOrdersCall): seq<Byte>
    requires Encodable(c)
  {
    SELECTOR + EncodeArgs(c)
  }

  /** A call lies in the arguments when its head and its four tails do, end to end. */
  ghost predicate CallAt(args: seq<Byte>, c: MatchOrdersCall)
    requires Encodable(c)
  {
    && WordsAt(args, 0, HeadWords(c))
    && SliceIs(args, TOP_HEAD_BYTES, MakersOffset(c), EncodeOrder(c.takerOrder))
    && SliceIs(args, MakersOffset(c), FillsOffset(c), EncodeOrderArray(c.makerOrders))
    && SliceIs(args, FillsOffset(c), FeesOffset(c), EncodeWordArray(c.makerFills))
    && SliceIs(args, FeesOffset(c), |args|, EncodeWordArray(c.makerFees))
  }

  lemma ArgsAreEncoded(args: seq<Byte>, c: MatchOrdersCall)
    requires Encodable(c)
    ensures CallAt(args, c) <==> args == EncodeArgs(c)
  {
    hide EncodeOrder, EncodeOrderArray, EncodeWordArray, HeadWords, WordsAt, WriteWords, WordSpan, Padded;
    var a, b, d := MakersOffset(c), FillsOffset(c), FeesOffset(c);
    var head, taker := WriteWords(HeadWords(c)), EncodeOrder(c.takerOrder);
    var makers, fills, fees :=
      EncodeOrderArray(c.makerOrders), EncodeWordArray(c.makerFills), EncodeWordArray(c.makerFees);
    if |args| == |EncodeArgs(c)| {
      WordsAtIsSlice(args, 0, HeadWords(c));
      SliceOfTwo(args, 0, TOP_HEAD_BYTES, a, head, taker);
      SliceOfTwo(args, 0, a, b, head + taker, makers);
      SliceOfTwo(args, 0, b, d, head + taker + makers, fills);
      SliceOfTwo(args, 0, d, |args|, head + taker + makers + fills, fees);
      assert args[0..|args|] == args;
    }
  }

  /** Whatever decodes lies in the arguments where its encoding would put it. */
  lemma DecodedLiesThere(input: seq<Byte>)
    requires DecodeCall(input).Some?
    ensures Encodable(DecodeCall(input).value) && CallAt(input[4..], DecodeCall(input).value)
  {
    hide DecodeOrder, DecodeOrderArray, DecodeWordArray, EncodeOrder, EncodeOrderArray, EncodeWordArray;
    hide WordsAt, SliceIs, WordSpan, Word32, SignatureFits, SignaturesFit;
    var args, c := input[4..], DecodeCall(input).value;
    var taker := DecodeOrder(args, TOP_HEAD_BYTES).value;
    var makers := DecodeOrderArray(args, taker.1).value;
    var fills := DecodeWordArray(args, makers.1, |makers.0|).value;
    var fees := DecodeWordArray(args, fills.1, |makers.0|).value;
    OrderRoundTrip(args, TOP_HEAD_BYTES, taker.0, taker.1);
    OrderArrayRoundTrip(args, taker.1, makers.0, makers.1);
    WordArrayRoundTrip(args, makers.1, |makers.0|, fills.0, fills.1);
    WordArrayRoundTrip(args, fills.1, |makers.0|, fees.0, fees.1);
    SliceInside(args, TOP_HEAD_BYTES, taker.1, EncodeOrder(taker.0));
    SliceInside(args, taker.1, makers.1, EncodeOrderArray(makers.0));
    SliceInside(args, makers.1, fills.1, EncodeWordArray(fills.0));
    RunIsWordByWord(args, 0, HeadWords(c), 7);
  }

  /** Whatever call lies in the arguments is decoded. */
  lemma LyingThereDecodes(args: seq<Byte>, c: MatchOrdersCall)
    requires Encodable(c) && CallAt(args, c) && |args| + 4 <= MAX_CALLDATA_BYTES && |args| % 32 == 0
    ensures DecodeCall(SELECTOR + args) == Some(c)
  {
    hide DecodeOrder, DecodeOrderArray, DecodeWordArray, EncodeOrder, EncodeOrderArray, EncodeWordArray;
    hide WordsAt, SliceIs, WordSpan, Word32, SignatureFits, SignaturesFit;
    var a, b, d, n := MakersOffset(c), FillsOffset(c), FeesOffset(c), |c.makerOrders|;
    assert (SELECTOR + args)[4..] == args && (SELECTOR + args)[..4] == SELECTOR;
    RunIsWordByWord(args, 0, HeadWords(c), 7);
    OrderRoundTrip(args, TOP_HEAD_BYTES, c.takerOrder, a);
    OrderArrayRoundTrip(args, a, c.makerOrders, b);
    WordArrayRoundTrip(args, b, n, c.makerFills, d);
    WordArrayRoundTrip(args, d, n, c.makerFees, |args|);
  }

  /** The codec is a bijection between the calls within the limits and the accepted calldata. */
  lemma CallRoundTrip(input: seq<Byte>, c: MatchOrdersCall)
    ensures DecodeCall(input) == Some(c)
      <==> Encodable(c) && input == EncodeCall(c) && |input| <= MAX_CALLDATA_BYTES
  {
    hide DecodeCall, Encodable, EncodeArgs, CallAt;
    if DecodeCall(input) == Some(c) {
      DecodedStarts(input);
      DecodedLiesThere(input);
      ArgsAreEncoded(input[4..], c);
    }
    if Encodable(c) && input == EncodeCall(c) && |input| <= MAX_CALLDATA_BYTES {
      ArgsAreEncoded(EncodeArgs(c), c);
      ArgsAreWords(c);
      LyingThereDecodes(EncodeArgs(c), c);
    }
  }

  lemma DecodedStarts(input: seq<Byte>)
    requires DecodeCall(input).Some?
    ensures 4 <= |input| <= MAX_CALLDATA_BYTES && input == SELECTOR + input[4..]
  {
    hide DecodeOrder, DecodeOrderArray, DecodeWordArray, WordUsize, Word32;
  }

  lemma {:induction false} TailsAreWords(orders: seq<MatchOrder>)
    requires SignaturesFit(orders)
    ensures |Tails(orders)| % 32 == 0
  {
    hide EncodeOrder, WordSpan, Padded, SignatureFits;
    if orders != [] {
      EncodedSize(orders[0]);
      TailsAreWords(orders[1..]);
      hide Tails;
      WordsAddUp(|EncodeOrder(orders[0])|, |Tails(orders[1..])|);
    }
  }

  lemma ArgsAreWords(c: MatchOrdersCall)
    requires Encodable(c)
    ensures |EncodeArgs(c)| % 32 == 0
  {
    hide EncodeOrder, EncodeWordArray, HeadWords, WordSpan, Padded, Tails, Offsets;
    EncodedSize(c.takerOrder);
    TailsAreWords(c.makerOrders);
  }

  /** Two different inputs never decode to the same call. */
  lemma DecoderIsInjective(a: seq<Byte>, b: seq<Byte>)
    requires DecodeCall(a).Some? && DecodeCall(a) == DecodeCall(b)
    ensures a == b
  {
    CallRoundTrip(a, DecodeCall(a).value);
    CallRoundTrip(b, DecodeCall(a).value);
  }

  // ----- the loops

  /** The order array as the program reads it, advancing a cursor from tail to tail. */
  method ReadOrderArray(args: seq<Byte>, start: nat) returns (r: Option<(seq<MatchOrder>, nat)>)
    ensures r == DecodeOrderArray(args, start)
  {
    hide DecodeOrder, WordUsize;
    var count :- WordUsize(args, start);
    if !(1 <= count <= MAX_MAKERS) { return None; }
    var headsStart := start + 32;
    var cursor := headsStart + 32 * count;
    if cursor > |args| { return None; }
    var orders: seq<MatchOrder> := [];
    ghost var first := cursor;
    PrependNothing(DecodeOrders(args, headsStart, 0, count, first));
    for index := 0 to count
      invariant cursor >= headsStart
      invariant DecodeOrders(args, headsStart, 0, count, first)
        == Prepend(orders, DecodeOrders(args, headsStart, index, count, cursor))
    {
      var relative :- WordUsize(args, headsStart + 32 * index);
      if relative != cursor - headsStart { return None; }
      var next :- DecodeOrder(args, cursor);
      PrependMore(orders, next.0, DecodeOrders(args, headsStart, index + 1, count, next.1));
      orders, cursor := orders + [next.0], next.1;
    }
    assert orders + [] == orders;
    r := Some((orders, cursor));
  }

  ghost function Prepend(orders: seq<MatchOrder>, rest: Option<(seq<MatchOrder>, nat)>)
    : Option<(seq<MatchOrder>, nat)>
  {
    if rest.None? then None else Some((orders + rest.value.0, rest.value.1))
  }

  lemma PrependNothing(rest: Option<(seq<MatchOrder>, nat)>)
    ensures Prepend([], rest) == rest
  {
    if rest.Some? {
      assert [] + rest.value.0 == rest.value.0;
    }
  }

  lemma PrependMore(orders: seq<MatchOrder>, order: MatchOrder, rest: Option<(seq<MatchOrder>, nat)>)
    ensures Prepend(orders + [order], rest) == Prepend(orders, Prepend([order], rest))
  {
    if rest.Some? {
      assert orders + [order] + rest.value.0 == orders + ([order] + rest.value.0);
    }
  }

  method ReadWordArray(args: seq<Byte>, start: nat, expectedCount: nat) returns (r: Option<(seq<U256>, nat)>)
    ensures r == DecodeWordArray(args, start, expectedCount)
  {
    var count :- WordUsize(args, start);
    if count != expectedCount || count > MAX_MAKERS { return None; }
    var valuesStart := start + 32;
    var end := valuesStart + 32 * count;
    if end > |args| { return None; }
    var values: seq<U256> := [];
    for index := 0 to count
      invariant values == ReadWords(args, valuesStart, index)
    {
      values := values + [Word32(args, valuesStart + 32 * index)];
    }
    r := Some((values, end));
  }

  /** The encoder of a tuple: thirteen words, the signature, then zeros up to a word boundary. */
  method WriteOrder(o: MatchOrder) returns (tuple: seq<Byte>)
    requires SignatureFits(o)
    ensures tuple == EncodeOrder(o)
  {
    hide WordBytes, WordSpan, AddressSpan;
    var words := OrderWords(o);
    tuple := [];
    for i := 0 to 13
      invariant tuple == WriteWords(words[..i])
    {
      assert words[..i + 1] == words[..i] + [words[i]];
      WriteWordsAppend(words[..i], words[i]);
      tuple := tuple + WordBytes(words[i]);
    }
    assert words[..13] == words;
    tuple := tuple + o.signature;
    ghost var unpadded, n := tuple, |o.signature|;
    assert |tuple| == 416 + n;
    var added: nat := 0;
    while |tuple| % 32 != 0
      invariant tuple == unpadded + Zeros(added) && added <= Padded(n) - n
      decreases Padded(n) - n - added
    {
      PaddingGap(n, added);
      assert Zeros(added + 1) == Zeros(added) + [0];
      tuple := tuple + [0];
      added := added + 1;
    }
    PaddingDone(n, added);
  }

  lemma PaddingGap(n: nat, added: nat)
    requires added <= Padded(n) - n && (416 + n + added) % 32 != 0
    ensures added < Padded(n) - n
  {
  }

  lemma PaddingDone(n: nat, added: nat)
    requires added <= Padded(n) - n && (416 + n + added) % 32 == 0
    ensures added == Padded(n) - n
  {
  }

  /** The encoder of an order array: the count, one offset per tail, then the tails. */
  method WriteOrderArray(orders: seq<MatchOrder>) returns (encoded: seq<Byte>)
    requires SignaturesFit(orders) && |orders| <= MAX_MAKERS
    ensures encoded == EncodeOrderArray(orders)
  {
    hide EncodeOrder, WordBytes, WordSpan, Offsets, Tails;
    encoded := WriteOffsets(orders, WordBytes(|orders|));
    encoded := WriteTails(orders, encoded);
  }

  lemma NextOffset(orders: seq<MatchOrder>, i: nat, offset: nat)
    requires i < |orders| && SignaturesFit(orders) && offset + MAX_ORDER_BYTES * |orders[i..]| < TWO_64
    ensures offset + |EncodeOrder(orders[i])| + MAX_ORDER_BYTES * |orders[i + 1..]| < TWO_64
    ensures Offsets(orders[i..], offset)
      == [offset] + Offsets(orders[i + 1..], offset + |EncodeOrder(orders[i])|)
  {
    hide EncodeOrder, WordSpan, Offsets, Padded;
    var rest := orders[i..];
    assert rest[1..] == orders[i + 1..] && rest[0] == orders[i];
    FirstOffset(rest, offset);
  }

  lemma FirstOffset(orders: seq<MatchOrder>, offset: nat)
    requires orders != [] && SignaturesFit(orders) && offset + MAX_ORDER_BYTES * |orders| < TWO_64
    ensures offset + |EncodeOrder(orders[0])| + MAX_ORDER_BYTES * |orders[1..]| < TWO_64
    ensures Offsets(orders, offset) == [offset] + Offsets(orders[1..], offset + |EncodeOrder(orders[0])|)
  {
    hide EncodeOrder, WordSpan, Padded;
  }

  /** At the start all offsets are still to be written; at the end none is. */
  lemma NoOffsets(orders: seq<MatchOrder>)
    ensures orders[0..] == orders && WriteWords([]) == []
    ensures forall offset: nat :: offset < TWO_64 ==> Offsets(orders[|orders|..], offset) == []
  {
  }

  /** The offsets before order i are written. */
  ghost predicate OffsetsWritten(orders: seq<MatchOrder>, i: nat, offset: nat, prefix: seq<Byte>, encoded: seq<Byte>,
                                 done: seq<U256>)
    requires SignaturesFit(orders) && |orders| <= MAX_MAKERS && i <= |orders|
  {
    && offset + MAX_ORDER_BYTES * |orders[i..]| < TWO_64
    && done + Offsets(orders[i..], offset) == Offsets(orders, 32 * |orders|)
    && encoded == prefix + WriteWords(done)
  }

  lemma OffsetWritten(orders: seq<MatchOrder>, i: nat, offset: U64, prefix: seq<Byte>, encoded: seq<Byte>,
                      done: seq<U256>)
    requires SignaturesFit(orders) && |orders| <= MAX_MAKERS && i < |orders|
    requires OffsetsWritten(orders, i, offset, prefix, encoded, done)
    ensures OffsetsWritten(orders, i + 1, offset + |EncodeOrder(orders[i])|, prefix, encoded + WordBytes(offset),
                           done + [offset])
  {
    hide EncodeOrder, WordBytes, WordSpan, Offsets, WriteWords, Padded, SignatureFits;
    NextOffset(orders, i, offset);
    WriteWordsAppend(done, offset);
    var rest := Offsets(orders[i + 1..], offset + |EncodeOrder(orders[i])|);
    assert done + ([offset] + rest) == done + [offset] + rest;
  }

  method WriteOffsets(orders: seq<MatchOrder>, prefix: seq<Byte>) returns (encoded: seq<Byte>)
    requires SignaturesFit(orders) && |orders| <= MAX_MAKERS
    ensures encoded == prefix + WriteWords(Offsets(orders, 32 * |orders|))
  {
    hide EncodeOrder, WordBytes, WordSpan, Offsets, WriteWords;
    encoded := prefix;
    NoOffsets(orders);
    var offset: U64 := 32 * |orders|;
    ghost var done: seq<U256> := [];
    for i := 0 to |orders|
      invariant OffsetsWritten(orders, i, offset, prefix, encoded, done)
    {
      OffsetWritten(orders, i, offset, prefix, encoded, done);
      encoded, done := encoded + WordBytes(offset), done + [offset];
      offset := offset + |EncodeOrder(orders[i])|;
    }
    assert done + [] == done;
  }

  method WriteTails(orders: seq<MatchOrder>, prefix: seq<Byte>) returns (encoded: seq<Byte>)
    requires SignaturesFit(orders)
    ensures encoded == prefix + Tails(orders)
  {
    hide EncodeOrder, WordSpan, Tails;
    encoded := prefix;
    assert orders[0..] == orders;
    for i := 0 to |orders|
      invariant encoded + Tails(orders[i..]) == prefix + Tails(orders)
    {
      var tail := WriteOrder(orders[i]);
      NextTail(orders, i);
      assert encoded + (tail + Tails(orders[i + 1..])) == encoded + tail + Tails(orders[i + 1..]);
      encoded := encoded + tail;
    }
    NoTails(orders);
  }

  lemma NextTail(orders: seq<MatchOrder>, i: nat)
    requires i < |orders| && SignaturesFit(orders)
    ensures Tails(orders[i..]) == EncodeOrder(orders[i]) + Tails(orders[i + 1..])
  {
    hide EncodeOrder, WordSpan, Padded;
    var rest := orders[i..];
    assert rest[1..] == orders[i + 1..] && rest[0] == orders[i];
  }

  lemma NoTails(orders: seq<MatchOrder>)
    ensures Tails(orders[|orders|..]) == []
  {
  }
}
