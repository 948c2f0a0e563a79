/** The carry loop that gives the next storage slot: byte by byte, from the last one on. */
module Carry {
  import opened Words
  import opened Bytes

  /** The bytes after the carry. */
  ghost function Increment(b: seq<Byte>): (r: seq<Byte>)
    ensures |r| == |b|
  {
    if b == [] then []
    else if b[|b| - 1] < 255 then b[..|b| - 1] + [b[|b| - 1] + 1]
    else Increment(b[..|b| - 1]) + [0]
  }

  /** The carry adds one, and an all-ones word wraps to zero. */
  lemma {:induction false} IncrementAddsOne(b: seq<Byte>)
    ensures FromBytes(Increment(b)) == if FromBytes(b) + 1 == Span(b) then 0 else FromBytes(b) + 1
    ensures FromBytes(b) < Span(b)
  {
    FromBytesBelowSpan(b);
    if b != [] {
      var front, last := b[..|b| - 1], b[|b| - 1];
      IncrementAddsOne(front);
      var next := Increment(b);
      assert next[..|b| - 1] == if last < 255 then front else Increment(front);
      assert FromBytes(next) == FromBytes(next[..|b| - 1]) * 256 + next[|b| - 1];
    }
  }

  lemma IncrementStep(b: seq<Byte>, k: nat)
    requires 0 < k <= |b|
    ensures Increment(b[..k]) == if b[k - 1] < 255 then b[..k - 1] + [b[k - 1] + 1] else Increment(b[..k - 1]) + [0]
  {
    assert b[..k][..k - 1] == b[..k - 1];
  }

  /** Adds one to a big-endian word in place. */
  method AddOne(bytes: array<Byte>)
    modifies bytes
    ensures bytes[..] == Increment(old(bytes[..]))
  {
    hide Increment;
    var k := bytes.Length;
    ghost var start, done := bytes[..], [];
    assert start[..k] == start && start + done == start;
    assert Increment(start) + done == Increment(start);
    while k > 0
      invariant 0 <= k <= bytes.Length
      invariant bytes[..] == start[..k] + done
      invariant Increment(start) == Increment(start[..k]) + done
    {
      IncrementStep(start, k);
      assert bytes[k - 1] == start[k - 1];
      if bytes[k - 1] < 255 {
        ReplaceLast(start, k, done, start[k - 1] + 1);
        bytes[k - 1] := bytes[k - 1] + 1;
        return;
      }
      ReplaceLast(start, k, done, 0);
      bytes[k - 1] := 0;
      k, done := k - 1, [0] + done;
    }
    EmptyIncrement();
    assert start[..0] == [];
  }

  lemma ReplaceLast(start: seq<Byte>, k: nat, done: seq<Byte>, b: Byte)
    requires 0 < k <= |start|
    ensures (start[..k] + done)[k - 1 := b] == start[..k - 1] + [b] + done == start[..k - 1] + ([b] + done)
    ensures forall front: seq<Byte> :: front + [b] + done == front + ([b] + done)
  {
  }

  lemma EmptyIncrement()
    ensures Increment([]) == []
  {
  }
}
