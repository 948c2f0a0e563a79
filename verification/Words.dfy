/** Fixed-width words. Every amount in the program is an unsigned 256-bit word and every
    arithmetic step on amounts is checked: an overflow or underflow is a missing result. */
module Words {
  import opened Arithmetic

  datatype Option<+T> = None | Some(value: T) {
    predicate IsFailure() { None? }

    function PropagateFailure<U>(): Option<U>
      requires None?
    {
      None
    }

    function Extract(): T
      requires Some?
    {
      value
    }

    function GetOr(default: T): T { if Some? then value else default }
  }

  type Byte = n: nat | n < 256

  /** How many byte strings are as long as this one. The word bounds are spans, not numerals,
      so that no proof has to compute with a 78-digit constant. */
  function Span(bytes: seq<Byte>): (r: nat)
    ensures r >= 1
  {
    if bytes == [] then 1 else 256 * Span(bytes[..|bytes| - 1])
  }

  function Zeros(n: nat): (r: seq<Byte>)
    ensures |r| == n
    ensures forall i :: 0 <= i < n ==> r[i] == 0
  {
    if n == 0 then [] else Zeros(n - 1) + [0]
  }

  lemma {:induction false} SpanIsLength(a: seq<Byte>, b: seq<Byte>)
    requires |a| == |b|
    ensures Span(a) == Span(b)
  {
    if a != [] {
      SpanIsLength(a[..|a| - 1], b[..|b| - 1]);
    }
  }

  lemma {:induction false} SpanConcat(a: seq<Byte>, b: seq<Byte>)
    ensures Span(a + b) == Span(a) * Span(b)
  {
    if b == [] {
      assert a + b == a;
    } else {
      var front := b[..|b| - 1];
      assert (a + b)[..|a + b| - 1] == a + front;
      SpanConcat(a, front);
      assert 256 * (Span(a) * Span(front)) == Span(a) * (256 * Span(front));
    }
  }

  const TWO_64: nat := 0x1_0000_0000_0000_0000

  lemma SpanOfEight(s: seq<Byte>)
    requires |s| == 8
    ensures Span(s) == TWO_64
  {
    assert s[..7][..6] == s[..6] && s[..6][..5] == s[..5] && s[..5][..4] == s[..4];
    assert s[..4][..3] == s[..3] && s[..3][..2] == s[..2] && s[..2][..1] == s[..1] && s[..1][..0] == [];
    assert Span(s[..1]) == 256 && Span(s[..2]) == 0x1_0000 && Span(s[..3]) == 0x100_0000;
    assert Span(s[..4]) == 0x1_0000_0000 && Span(s[..5]) == 0x100_0000_0000;
    assert Span(s[..6]) == 0x1_0000_0000_0000 && Span(s[..7]) == 0x100_0000_0000_0000;
  }

  /** Longer strings span more than sixty-four bits. */
  lemma SpanAboveEight(s: seq<Byte>)
    requires |s| > 8
    ensures Span(s) > TWO_64
  {
    var k := |s| - 8;
    assert s == s[..k] + s[k..];
    SpanConcat(s[..k], s[k..]);
    SpanOfEight(s[k..]);
    assert Span(s[..k]) >= 256;
    assert Span(s[..k]) * TWO_64 >= 256 * TWO_64;
  }

  /** A word has 32 bytes; an address has 20. */
  function WordSpan(): (r: nat)
    ensures r > TWO_64
  {
    SpanAboveEight(Zeros(32));
    Span(Zeros(32))
  }

  function AddressSpan(): (r: nat)
    ensures TWO_64 < r <= WordSpan()
  {
    SpanAboveEight(Zeros(20));
    SpanConcat(Zeros(12), Zeros(20));
    SpanIsLength(Zeros(12) + Zeros(20), Zeros(32));
    ProductAtLeast(Span(Zeros(20)), Span(Zeros(12)));
    Span(Zeros(20))
  }

  type U64 = n: nat | n < TWO_64
  type U256 = n: nat | n < WordSpan()
  type Address = n: nat | n < AddressSpan()
  type Hash = U256

  const ZERO_ADDRESS: Address := 0

  /** One of the two outcomes. */
  type Side = i: nat | i < 2

  datatype Pair = Pair(first: U256, second: U256) {
    function Get(i: Side): U256 { if i == 0 then first else second }

    function With(i: Side, value: U256): Pair { if i == 0 then this.(first := value) else this.(second := value) }
  }

  predicate Fits(n: int) { 0 <= n < WordSpan() }

  function Checked(n: int): Option<U256> {
    if Fits(n) then Some(n) else None
  }

  function CheckedAdd(a: U256, b: U256): Option<U256> { Checked(a + b) }

  function CheckedSub(a: U256, b: U256): Option<U256> { Checked(a - b) }

  function CheckedMul(a: U256, b: U256): Option<U256> { Checked(a * b) }

  function CheckedDiv(a: U256, b: U256): Option<U256> {
    if b == 0 then None else QuotientAtMost(a, b); Some(a / b)
  }

  /** Floor of left * right / denominator; missing when the product does not fit in a word. */
  function CheckedMulDiv(left: U256, right: U256, denominator: U256): Option<U256> {
    if denominator == 0 then
      None
    else
      var product :- CheckedMul(left, right);
      CheckedDiv(product, denominator)
  }

  function Min(a: nat, b: nat): nat { if a <= b then a else b }
}
