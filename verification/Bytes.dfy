/** Big-endian words in byte strings: reading and writing are inverse to each other. */
module Bytes {
  import opened Words

  function FromBytes(b: seq<Byte>): nat {
    if b == [] then 0 else FromBytes(b[..|b| - 1]) * 256 + b[|b| - 1]
  }

  function ToBytes(n: nat, len: nat): (r: seq<Byte>)
    ensures |r| == len
  {
    if len == 0 then [] else ToBytes(n / 256, len - 1) + [n % 256]
  }

  lemma {:induction false} FromBytesBelowSpan(b: seq<Byte>)
    ensures FromBytes(b) < Span(b)
  {
    if b != [] {
      FromBytesBelowSpan(b[..|b| - 1]);
    }
  }

  /** Writing what was read gives the bytes back. */
  lemma {:induction false} WriteRead(b: seq<Byte>)
    ensures ToBytes(FromBytes(b), |b|) == b
  {
    if b != [] {
      var front, last := b[..|b| - 1], b[|b| - 1];
      WriteRead(front);
      assert FromBytes(b) / 256 == FromBytes(front) && FromBytes(b) % 256 == last;
      assert b == front + [last];
    }
  }

  /** Reading what was written gives the number back, when it fits. */
  lemma {:induction false} ReadWrite(n: nat, len: nat)
    requires n < Span(Zeros(len))
    ensures FromBytes(ToBytes(n, len)) == n
  {
    if len > 0 {
      var front := ToBytes(n / 256, len - 1);
      assert Zeros(len)[..len - 1] == Zeros(len - 1);
      ReadWrite(n / 256, len - 1);
      assert ToBytes(n, len)[..len - 1] == front;
    }
  }

  /** Leading zero bytes do not change a number; so a word holds an address exactly when its
      first twelve bytes are zero. */
  lemma {:induction false} LeadingZeros(k: nat, b: seq<Byte>)
    ensures FromBytes(Zeros(k) + b) == FromBytes(b)
    decreases |b|, k
  {
    if b == [] {
      assert Zeros(k) + b == Zeros(k);
      if k > 0 {
        LeadingZeros(k - 1, []);
        assert Zeros(k - 1) + [] == Zeros(k - 1);
        assert Zeros(k)[..k - 1] == Zeros(k - 1);
      }
    } else {
      assert (Zeros(k) + b)[..|Zeros(k) + b| - 1] == Zeros(k) + b[..|b| - 1];
      LeadingZeros(k, b[..|b| - 1]);
    }
  }

  lemma AddressWord(b: seq<Byte>)
    requires |b| == 32
    ensures FromBytes(b) < AddressSpan() <==> b[..12] == Zeros(12)
  {
    if b[..12] == Zeros(12) {
      assert b == Zeros(12) + b[12..];
      LeadingZeros(12, b[12..]);
      FromBytesBelowSpan(b[12..]);
      SpanIsLength(b[12..], Zeros(20));
    }
    if FromBytes(b) < AddressSpan() {
      var n := FromBytes(b);
      var canonical := Zeros(12) + ToBytes(n, 20);
      ReadWrite(n, 20);
      LeadingZeros(12, ToBytes(n, 20));
      WriteRead(b);
      WriteRead(canonical);
      assert b == canonical;
    }
  }

  // ----- words

  function WordBytes(w: U256): (r: seq<Byte>)
    ensures |r| == 32
  {
    ToBytes(w, 32)
  }

  /** The number that the 32 bytes from an offset on write. */
  ghost function Number(data: seq<Byte>, at: nat): nat
    requires at + 32 <= |data|
  {
    FromBytes(data[at..at + 32])
  }

  function Word32(data: seq<Byte>, offset: nat): U256
    requires offset + 32 <= |data|
  {
    FromBytesBelowSpan(data[offset..offset + 32]);
    SpanIsLength(data[offset..offset + 32], Zeros(32));
    FromBytes(data[offset..offset + 32])
  }

  /** The word at an offset; missing past the end. */
  function WordAt(data: seq<Byte>, offset: nat): Option<U256> {
    if offset + 32 <= |data| then Some(Word32(data, offset)) else None
  }

  /** A word is at an offset exactly when its bytes are. */
  lemma WordAtIsSlice(data: seq<Byte>, offset: nat, w: U256)
    ensures WordAt(data, offset) == Some(w)
      <==> offset + 32 <= |data| && data[offset..offset + 32] == WordBytes(w)
  {
    if offset + 32 <= |data| {
      assert WordSpan() == Span(Zeros(32));
      WriteRead(data[offset..offset + 32]);
      ReadWrite(w, 32);
    }
  }

  function WriteWords(ws: seq<U256>): (r: seq<Byte>)
    ensures |r| == 32 * |ws|
  {
    if ws == [] then [] else WriteWords(ws[..|ws| - 1]) + WordBytes(ws[|ws| - 1])
  }

  lemma WriteWordsAppend(ws: seq<U256>, w: U256)
    ensures WriteWords(ws + [w]) == WriteWords(ws) + WordBytes(w)
  {
    assert (ws + [w])[..|ws|] == ws;
  }

  lemma {:induction false} WriteWordsConcat(a: seq<U256>, b: seq<U256>)
    ensures WriteWords(a + b) == WriteWords(a) + WriteWords(b)
  {
    hide WordBytes, WordSpan;
    if b == [] {
      assert a + b == a;
    } else {
      var front, last := b[..|b| - 1], b[|b| - 1];
      WriteWordsConcat(a, front);
      assert a + b == a + front + [last] && b == front + [last];
      hide WriteWords;
      WriteWordsAppend(a + front, last);
      WriteWordsAppend(front, last);
      assert WriteWords(a) + WriteWords(front) + WordBytes(last)
          == WriteWords(a) + (WriteWords(front) + WordBytes(last));
    }
  }

  ghost predicate WordsAt(data: seq<Byte>, start: nat, ws: seq<U256>) {
    forall i :: 0 <= i < |ws| ==> WordAt(data, start + 32 * i) == Some(ws[i])
  }

  /** A run of words is in the data exactly when its bytes are. */
  lemma {:induction false} WordsAtIsSlice(data: seq<Byte>, start: nat, ws: seq<U256>)
    requires start + 32 * |ws| <= |data|
    ensures WordsAt(data, start, ws) <==> data[start..start + 32 * |ws|] == WriteWords(ws)
  {
    hide WordSpan;
    if ws != [] {
      hide WordsAt, WordAt, WriteWords, WordBytes, Word32;
      var front, last := ws[..|ws| - 1], ws[|ws| - 1];
      var mid := start + 32 * |front|;
      WordsAtIsSlice(data, start, front);
      WordAtIsSlice(data, mid, last);
      LastWordAt(data, start, ws);
      assert front + [last] == ws;
      WriteWordsAppend(front, last);
      SliceOfTwo(data, start, mid, mid + 32, WriteWords(front), WordBytes(last));
    }
  }

  lemma LastWordAt(data: seq<Byte>, start: nat, ws: seq<U256>)
    requires ws != []
    ensures var n := |ws| - 1;
      WordsAt(data, start, ws) <==> WordsAt(data, start, ws[..n]) && WordAt(data, start + 32 * n) == Some(ws[n])
  {
    hide WordAt;
    var n := |ws| - 1;
    assert forall i :: 0 <= i < n ==> ws[..n][i] == ws[i];
  }

  /** A concatenation is in the data exactly when its parts are. */
  lemma SliceOfTwo(data: seq<Byte>, a: nat, b: nat, c: nat, x: seq<Byte>, y: seq<Byte>)
    requires a <= b <= c <= |data| && |x| == b - a && |y| == c - b
    ensures data[a..c] == x + y <==> data[a..b] == x && data[b..c] == y
  {
    assert data[a..c] == data[a..b] + data[b..c];
    assert data[a..c][..b - a] == data[a..b] && data[a..c][b - a..] == data[b..c];
    assert (x + y)[..b - a] == x && (x + y)[b - a..] == y;
  }

  /** The n words from an offset on. */
  function ReadWords(data: seq<Byte>, start: nat, n: nat): (r: seq<U256>)
    requires start + 32 * n <= |data|
    ensures |r| == n
    ensures WordsAt(data, start, r)
  {
    if n == 0 then [] else ReadWords(data, start, n - 1) + [Word32(data, start + 32 * (n - 1))]
  }

  // ----- runs of words, taken apart

  lemma WordsAtConcat(data: seq<Byte>, start: nat, a: seq<U256>, b: seq<U256>)
    ensures WordsAt(data, start, a + b) <==> WordsAt(data, start, a) && WordsAt(data, start + 32 * |a|, b)
  {
    hide WordsAt;
    if WordsAt(data, start, a + b) { WordsAtParts(data, start, a, b); }
    if WordsAt(data, start, a) && WordsAt(data, start + 32 * |a|, b) { WordsAtWhole(data, start, a, b); }
  }

  lemma WordsAtParts(data: seq<Byte>, start: nat, a: seq<U256>, b: seq<U256>)
    requires WordsAt(data, start, a + b)
    ensures WordsAt(data, start, a) && WordsAt(data, start + 32 * |a|, b)
  {
    hide WordAt;
    var ws := a + b;
    forall i | 0 <= i < |a|
      ensures WordAt(data, start + 32 * i) == Some(a[i])
    {
      assert ws[i] == a[i];
    }
    forall i | 0 <= i < |b|
      ensures WordAt(data, start + 32 * |a| + 32 * i) == Some(b[i])
    {
      assert ws[|a| + i] == b[i] && start + 32 * (|a| + i) == start + 32 * |a| + 32 * i;
    }
  }

  lemma WordsAtWhole(data: seq<Byte>, start: nat, a: seq<U256>, b: seq<U256>)
    requires WordsAt(data, start, a) && WordsAt(data, start + 32 * |a|, b)
    ensures WordsAt(data, start, a + b)
  {
    hide WordAt;
    var ws := a + b;
    forall i | 0 <= i < |ws|
      ensures WordAt(data, start + 32 * i) == Some(ws[i])
    {
      if i >= |a| {
        assert start + 32 * i == start + 32 * |a| + 32 * (i - |a|);
        assert ws[i] == b[i - |a|];
      }
    }
  }

  lemma WordsAtOne(data: seq<Byte>, start: nat, w: U256)
    ensures WordsAt(data, start, [w]) <==> WordAt(data, start) == Some(w)
  {
    hide WordAt;
    if WordsAt(data, start, [w]) {
      assert WordAt(data, start + 32 * 0) == Some([w][0]);
    }
  }

  lemma {:induction false} ReadWordsIs(data: seq<Byte>, start: nat, ws: seq<U256>)
    requires WordsAt(data, start, ws) && start + 32 * |ws| <= |data|
    ensures ReadWords(data, start, |ws|) == ws
  {
    if ws != [] {
      var n := |ws| - 1;
      assert WordAt(data, start + 32 * n) == Some(ws[n]);
      ReadWordsIs(data, start, ws[..n]);
    }
  }

  lemma WordsAtInside(data: seq<Byte>, start: nat, ws: seq<U256>)
    requires WordsAt(data, start, ws) && ws != []
    ensures start + 32 * |ws| <= |data|
  {
    assert WordAt(data, start + 32 * (|ws| - 1)) == Some(ws[|ws| - 1]);
  }

  /** The first n words of a run, one after the other. */
  ghost predicate WordByWord(data: seq<Byte>, start: nat, ws: seq<U256>, n: nat)
    requires n <= |ws|
    decreases n
  {
    n == 0 || (WordByWord(data, start, ws, n - 1) && WordAt(data, start + 32 * (n - 1)) == Some(ws[n - 1]))
  }

  /** A run of words is in the data exactly when each of them is. For a run of known length this
      reads the words off one by one. */
  lemma {:induction false} RunIsWordByWord(data: seq<Byte>, start: nat, ws: seq<U256>, n: nat)
    requires n <= |ws|
    ensures WordsAt(data, start, ws[..n]) <==> WordByWord(data, start, ws, n)
    ensures n == |ws| ==> ws[..n] == ws
  {
    hide WordAt;
    if n > 0 {
      RunIsWordByWord(data, start, ws, n - 1);
      assert ws[..n][..n - 1] == ws[..n - 1];
      LastWordAt(data, start, ws[..n]);
    }
  }

  /** Bytes are a selector and a run of words exactly when they read so. */
  lemma ReadsAs(input: seq<Byte>, selector: seq<Byte>, ws: seq<U256>)
    requires |selector| == 4
    ensures input == selector + WriteWords(ws)
      <==> |input| == 4 + 32 * |ws| && input[..4] == selector && WordsAt(input[4..], 0, ws)
  {
    hide WordSpan, WordsAt, WriteWords;
    if |input| == 4 + 32 * |ws| {
      WordsAtIsSlice(input[4..], 0, ws);
      assert input == input[..4] + input[4..];
      assert input[4..][0..32 * |ws|] == input[4..];
    }
    assert (selector + WriteWords(ws))[..4] == selector && (selector + WriteWords(ws))[4..] == WriteWords(ws);
  }
}
