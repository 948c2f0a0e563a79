/** The collection id of a condition: the first point of the curve y^2 = x^3 + 3 at or after a
    hash, written as its x and the parity of its y. The walk takes the prime and the exponent as
    parameters; BaseField gives the program's own. */
module CurvePoint {
  import opened Arithmetic
  import opened Words
  import opened Bytes
  import opened Residues

  const MAX_CANDIDATES: nat := 128

  /** The weight of the parity bit: a quarter of all words, one bit above every x. */
  function ParityWeight(): (r: nat)
    ensures r >= 64
  {
    64 * Span(Zeros(31))
  }

  /** An odd prime below the parity bit, and the exponent of the square root. */
  datatype Field = Field(prime: nat, exponent: nat) {
    predicate Usable() { prime >= 3 && prime % 2 == 1 && prime < ParityWeight() }
  }

  function ModPow(base: nat, exponent: nat, prime: nat): (r: nat)
    requires prime > 0
    ensures r < prime
  {
    if exponent == 0 then 1 % prime else ModPow(base, exponent - 1, prime) * base % prime
  }

  function Cubic(x: nat, f: Field): (r: nat)
    requires f.Usable()
    ensures r < f.prime
  {
    ((x * x % f.prime) * x + 3) % f.prime
  }

  function Root(x: nat, f: Field): (r: nat)
    requires f.Usable()
    ensures r < f.prime
  {
    ModPow(Cubic(x, f), f.exponent, f.prime)
  }

  /** The candidate has a root: the power squares back. */
  predicate Passes(x: nat, f: Field)
    requires f.Usable()
  {
    Root(x, f) * Root(x, f) % f.prime == Cubic(x, f)
  }

  predicate IsOdd(n: nat) { n % 2 == 1 }

  /** The k-th candidate after a hash, wrapping at the prime. */
  function Candidate(hash: seq<Byte>, k: nat, f: Field): (r: nat)
    requires f.Usable()
    ensures r < f.prime
  {
    if k == 0 then (FromBytes(hash) % f.prime + 1) % f.prime else (Candidate(hash, k - 1, f) + 1) % f.prime
  }

  // ----- modular arithmetic

  lemma ModProduct(a: nat, b: nat, p: nat)
    requires p > 0
    ensures (a % p) * b % p == a * b % p
    ensures ((a % p) * b + 3) % p == (a * b + 3) % p
  {
    FloorBounds(a, p);
    var q, r := a / p, a % p;
    assert a == q * p + r;
    Distribute(q * p, r, b);
    assert q * p * b == q * b * p;
    ModShift(r * b, q * b, p);
    ModShift(r * b + 3, q * b, p);
  }

  /** The other root squares to the same. */
  lemma OtherRoot(y: nat, p: nat)
    requires y <= p && p > 0
    ensures (p - y) * (p - y) % p == y * y % p
  {
    assert (p - y) * (p - y) + 2 * y * p == y * y + p * p;
    ModShift((p - y) * (p - y), 2 * y, p);
    ModShift(y * y, p, p);
  }

  ghost predicate OnCurve(x: nat, y: nat, f: Field)
    requires f.Usable()
  {
    y * y % f.prime == (x * x * x + 3) % f.prime
  }

  // ----- the encoding

  /** Sets the parity bit of the top byte. */
  function SetParity(top: Byte): Byte { if top % 128 >= 64 then top else top + 64 }

  function Encode(x: U256, odd: bool): (r: seq<Byte>)
    ensures |r| == 32
  {
    var bytes := ToBytes(x, 32);
    if odd then bytes[0 := SetParity(bytes[0])] else bytes
  }

  lemma {:induction false} TopByte(top: Byte, rest: seq<Byte>)
    ensures FromBytes([top] + rest) == top * Span(rest) + FromBytes(rest)
  {
    var bytes := [top] + rest;
    if rest == [] {
      assert bytes[..0] == [];
    } else {
      assert bytes[..|bytes| - 1] == [top] + rest[..|rest| - 1];
      TopByte(top, rest[..|rest| - 1]);
      assert top * (256 * Span(rest[..|rest| - 1])) == top * Span(rest[..|rest| - 1]) * 256;
    }
  }

  lemma WordIsFourWeights()
    ensures WordSpan() == 4 * ParityWeight()
  {
    var top: seq<Byte> := [0];
    assert top[..0] == [];
    assert Span(top) == 256;
    SpanConcat(top, Zeros(31));
    SpanIsLength(top + Zeros(31), Zeros(32));
  }

  /** An x below the parity bit is written as itself, plus the bit's weight when odd. */
  lemma EncodeAdds(x: U256, odd: bool)
    requires x < ParityWeight()
    ensures FromBytes(Encode(x, odd)) == x + if odd then ParityWeight() else 0
  {
    hide WordSpan, ParityWeight;
    var bytes := ToBytes(x, 32);
    var rest := bytes[1..];
    WordReads(x);
    assert bytes == [bytes[0]] + rest;
    TopByte(bytes[0], rest);
    SpanIsLength(rest, Zeros(31));
    WeightIs();
    if bytes[0] >= 64 {
      Scale(64, bytes[0], Span(rest));
    }
    if odd {
      assert Encode(x, odd) == [SetParity(bytes[0])] + rest;
      TopByte(SetParity(bytes[0]), rest);
      Distribute(bytes[0], 64, Span(rest));
    }
  }

  lemma WordReads(x: U256)
    ensures FromBytes(ToBytes(x, 32)) == x
  {
    assert WordSpan() == Span(Zeros(32));
    ReadWrite(x, 32);
  }

  lemma WeightIs()
    ensures ParityWeight() == 64 * Span(Zeros(31))
  {
  }

  /** A word splits in one way only into an x below the bit and the bit. */
  lemma SplitIsUnique(x: nat, odd: bool, other: nat, otherOdd: bool)
    requires x < ParityWeight() && other < ParityWeight()
    requires x + (if odd then ParityWeight() else 0) == other + if otherOdd then ParityWeight() else 0
    ensures x == other && odd == otherOdd
  {
    hide ParityWeight;
  }

  // ----- the walk

  /** The collection id says this point: its x, and the parity of a root of that parity. */
  ghost predicate IsPoint(id: seq<Byte>, x: nat, odd: bool, f: Field)
    requires f.Usable()
  {
    && |id| == 32 && x < f.prime && FromBytes(id) == x + (if odd then ParityWeight() else 0)
    && exists y: nat :: y <= f.prime && IsOdd(y) == odd && OnCurve(x, y, f)
  }

  lemma CubicIsPlain(x: nat, f: Field)
    requires f.Usable()
    ensures Cubic(x, f) == (x * x * x + 3) % f.prime
  {
    hide ParityWeight;
    ModProduct(x * x, x, f.prime);
  }

  lemma OtherParity(y: nat, f: Field)
    requires f.Usable() && y < f.prime
    ensures IsOdd(f.prime - y) == !IsOdd(y)
  {
    hide ParityWeight;
  }

  ghost function RootWithParity(x: nat, odd: bool, f: Field): nat
    requires f.Usable()
  {
    if IsOdd(Root(x, f)) == odd then Root(x, f) else f.prime - Root(x, f)
  }

  lemma RootOfParity(x: nat, odd: bool, f: Field)
    requires f.Usable() && Passes(x, f)
    ensures var y := RootWithParity(x, odd, f);
      y <= f.prime && IsOdd(y) == odd && OnCurve(x, y, f)
  {
    hide ParityWeight, Root, Cubic, IsOdd;
    CubicIsPlain(x, f);
    OtherRoot(Root(x, f), f.prime);
    OtherParity(Root(x, f), f);
  }

  ghost predicate PassesAt(hash: seq<Byte>, k: nat, f: Field)
    requires f.Usable()
  {
    Passes(Candidate(hash, k, f), f)
  }

  /** The k-th candidate passes and no one before it does. */
  ghost predicate IsFirst(hash: seq<Byte>, k: nat, f: Field)
    requires f.Usable()
  {
    PassesAt(hash, k, f) && forall j :: 0 <= j < k ==> !PassesAt(hash, j, f)
  }

  // ----- over a prime, the candidates that pass are the points of the curve

  ghost predicate HasPoint(x: nat, f: Field)
    requires f.Usable()
  {
    exists y: nat :: OnCurve(x, y, f)
  }

  lemma {:induction false} ModPowIsPower(base: nat, exponent: nat, prime: nat)
    requires prime > 0
    ensures ModPow(base, exponent, prime) == Power(base, exponent) % prime
  {
    if exponent > 0 {
      ModPowIsPower(base, exponent - 1, prime);
      ModProduct(Power(base, exponent - 1), base, prime);
    }
  }

  /** A candidate passes exactly when it is the x of a point: the power finds a root of every
      square, when the field is prime and the exponent a quarter of its successor. */
  lemma PassesIsHasPoint(x: nat, f: Field)
    requires f.Usable() && Prime(f.prime) && 4 * f.exponent == f.prime + 1
    ensures Passes(x, f) <==> HasPoint(x, f)
  {
    hide ParityWeight, Cubic, Root, ModPow, Power, Prime, IsOdd;
    if Passes(x, f) {
      RootOfParity(x, true, f);
      assert OnCurve(x, RootWithParity(x, true, f), f);
    }
    if HasPoint(x, f) {
      var y: nat :| OnCurve(x, y, f);
      SquarePasses(x, y, f);
    }
  }

  lemma SquarePasses(x: nat, y: nat, f: Field)
    requires f.Usable() && Prime(f.prime) && 4 * f.exponent == f.prime + 1 && OnCurve(x, y, f)
    ensures Passes(x, f)
  {
    hide ParityWeight, Cubic, ModPow, Power, Prime;
    var c, p := Cubic(x, f), f.prime;
    var power := Power(c, f.exponent);
    CubicIsPlain(x, f);
    BelowIsItself(c, p);
    QuarterPowerIsRoot(y, c, f.exponent, p);
    ModPowIsPower(c, f.exponent, p);
    BelowIsItself(power % p, p);
    SameProduct(power % p, power, power % p, power, p);
  }

  lemma BelowIsItself(n: nat, p: nat)
    requires n < p
    ensures n % p == n
  {
  }

  ghost predicate HasPointAt(hash: seq<Byte>, k: nat, f: Field)
    requires f.Usable()
  {
    HasPoint(Candidate(hash, k, f), f)
  }

  lemma PassesAtIsHasPointAt(hash: seq<Byte>, k: nat, f: Field)
    requires f.Usable() && Prime(f.prime) && 4 * f.exponent == f.prime + 1
    ensures PassesAt(hash, k, f) <==> HasPointAt(hash, k, f)
  {
    hide ParityWeight, Passes, HasPoint, Candidate, Prime;
    PassesIsHasPoint(Candidate(hash, k, f), f);
  }

  /** So the walk stops at the first candidate that is the x of a point. */
  lemma FirstIsFirstPoint(hash: seq<Byte>, k: nat, f: Field)
    requires f.Usable() && Prime(f.prime) && 4 * f.exponent == f.prime + 1
    ensures IsFirst(hash, k, f) <==> HasPointAt(hash, k, f) && forall j :: 0 <= j < k ==> !HasPointAt(hash, j, f)
  {
    hide ParityWeight, PassesAt, HasPointAt, Prime;
    forall j: nat {
      PassesAtIsHasPointAt(hash, j, f);
    }
  }

  /** Walks the candidates from the hash on, up to a limit, to the first one that has a root. */
  method RootCollectionId(hash: seq<Byte>, f: Field, limit: nat) returns (r: Option<seq<Byte>>)
    requires |hash| == 32 && f.Usable()
    ensures r.None? <==> forall k :: 0 <= k < Min(limit, 128) ==> !PassesAt(hash, k, f)
    ensures r.Some? ==>
      exists k :: 0 <= k < Min(limit, 128) && IsFirst(hash, k, f)
                  && IsPoint(r.value, Candidate(hash, k, f), hash[0] >= 128, f)
  {
    hide ParityWeight, Passes, PassesAt, IsFirst, IsPoint, Candidate, Root, Encode, FromBytes, WordSpan;
    var odd := hash[0] >= 128;
    var x := (FromBytes(hash) % f.prime + 1) % f.prime;
    FirstCandidate(hash, f);
    for k := 0 to Min(limit, MAX_CANDIDATES)
      invariant x == Candidate(hash, k, f)
      invariant forall j :: 0 <= j < k ==> !PassesAt(hash, j, f)
    {
      TestedAt(hash, k, f);
      if Passes(x, f) {
        PointIsWritten(hash, k, odd, f);
        r := Some(Encode(x, odd));
        return;
      }
      NextCandidate(hash, k, f);
      x := (x + 1) % f.prime;
    }
    r := None;
  }

  lemma FirstCandidate(hash: seq<Byte>, f: Field)
    requires f.Usable()
    ensures Candidate(hash, 0, f) == (FromBytes(hash) % f.prime + 1) % f.prime
  {
  }

  lemma NextCandidate(hash: seq<Byte>, k: nat, f: Field)
    requires f.Usable()
    ensures Candidate(hash, k + 1, f) == (Candidate(hash, k, f) + 1) % f.prime
  {
  }

  lemma TestedAt(hash: seq<Byte>, k: nat, f: Field)
    requires f.Usable()
    ensures PassesAt(hash, k, f) <==> Passes(Candidate(hash, k, f), f)
  {
    hide Passes, Candidate;
  }

  /** The first candidate that passes is written as a point of the wanted parity. */
  lemma PointIsWritten(hash: seq<Byte>, k: nat, odd: bool, f: Field)
    requires f.Usable() && PassesAt(hash, k, f) && forall j :: 0 <= j < k ==> !PassesAt(hash, j, f)
    ensures Candidate(hash, k, f) < ParityWeight() <= WordSpan()
    ensures IsFirst(hash, k, f) && IsPoint(Encode(Candidate(hash, k, f), odd), Candidate(hash, k, f), odd, f)
  {
    hide ParityWeight, Passes, OnCurve, Root, Encode, FromBytes, WordSpan, Candidate, IsOdd;
    var x := Candidate(hash, k, f);
    BelowWeight(x, f);
    RootOfParity(x, odd, f);
    WordIsFourWeights();
    EncodeAdds(x, odd);
    ghost var y := RootWithParity(x, odd, f);
    assert y <= f.prime && IsOdd(y) == odd && OnCurve(x, y, f);
  }

  lemma BelowWeight(x: nat, f: Field)
    requires f.Usable() && x < f.prime
    ensures x < ParityWeight()
  {
    hide ParityWeight;
  }

  // ----- the field in use

  /** The base of a limb of eight bytes. Products keep it as a name, so that no proof computes
      with a 254-bit constant. */
  ghost function Base(): nat { TWO_64 }

  lemma BaseIs()
    ensures Base() == TWO_64
  {
  }

  /** A number of four limbs. */
  ghost function Limbs(a: U64, b: U64, c: U64, d: U64): nat { ((a * Base() + b) * Base() + c) * Base() + d }

  /** The prime of alt_bn128's base field and the exponent of its square root. */
  ghost function BaseField(): Field {
    Field(Limbs(0x30644e72e131a029, 0xb85045b68181585d, 0x97816a916871ca8d, 0x3c208c16d87cfd47),
          Limbs(0x0c19139cb84c680a, 0x6e14116da0605617, 0x65e05aa45a1c72a3, 0x4f082305b61f3f52))
  }

  /** One limb more of a number that is four times another, with the carries between limbs. */
  lemma QuarterLimb(high: int, highPart: int, limb: int, part: int, carry: int, below: int)
    requires 4 * highPart == high + carry && 4 * part + carry * Base() == limb + below
    ensures 4 * (highPart * Base() + part) == high * Base() + limb + below
  {
    hide Base;
    Distribute(high, carry, Base());
    assert 4 * (highPart * Base()) == (4 * highPart) * Base();
  }

  lemma QuarterOf(a: U64, b: U64, c: U64, d: U64, a4: U64, b4: U64, c4: U64, d4: U64)
    requires 4 * a4 == a - 1 && 4 * b4 - Base() == b - 1 && 4 * c4 - Base() == c - 1 && 4 * d4 - Base() == d + 1
    ensures 4 * Limbs(a4, b4, c4, d4) == Limbs(a, b, c, d) + 1
  {
    hide Base;
    var high, highPart := a * Base() + b, a4 * Base() + b4;
    QuarterLimb(a, a4, b, b4, -1, -1);
    QuarterLimb(high, highPart, c, c4, -1, -1);
    QuarterLimb(high * Base() + c, highPart * Base() + c4, d, d4, -1, 1);
  }

  lemma WordIsFourLimbs()
    ensures WordSpan() == Base() * Base() * Base() * Base()
  {
    hide Base;
    assert WordSpan() == Span(Zeros(32));
    TwoHalves(8);
    TwoHalves(16);
    SpanOfEight(Zeros(8));
    BaseIs();
    assert Span(Zeros(8)) == Base();
  }

  lemma TwoHalves(n: nat)
    ensures Span(Zeros(2 * n)) == Span(Zeros(n)) * Span(Zeros(n))
  {
    SpanConcat(Zeros(n), Zeros(n));
    SpanIsLength(Zeros(n) + Zeros(n), Zeros(2 * n));
  }

  /** A number whose first limb is small enough is less than a quarter of all words. */
  lemma LimbsBelow(a: U64, b: U64, c: U64, d: U64)
    requires 4 * (a + 1) <= Base()
    ensures 4 * Limbs(a, b, c, d) < Base() * Base() * Base() * Base()
  {
    BaseIs();
    hide Base;
    var s := Base();
    var two := a * s + b;
    var three := two * s + c;
    Distribute(a, 1, s);
    assert two + 1 <= (a + 1) * s;
    Scale(two + 1, (a + 1) * s, s);
    Distribute(two, 1, s);
    assert three + 1 <= (a + 1) * s * s;
    Scale(three + 1, (a + 1) * s * s, s);
    Distribute(three, 1, s);
    assert three * s + d + 1 <= (a + 1) * s * s * s;
    Scale(4 * (a + 1), s, s);
    Scale(4 * (a + 1) * s, s * s, s);
    Scale(4 * (a + 1) * s * s, s * s * s, s);
  }

  lemma LastLimb(a: U64, b: U64, c: U64, d: U64)
    ensures Limbs(a, b, c, d) >= d && Limbs(a, b, c, d) % 2 == d % 2
  {
    hide Base;
    var high := (a * Base() + b) * Base() + c;
    BaseIs();
    EvenPart(high, d);
  }

  lemma EvenPart(high: nat, d: nat)
    ensures high * TWO_64 + d >= d && (high * TWO_64 + d) % 2 == d % 2
  {
  }

  /** The program's own field is usable, and its exponent is a quarter of the prime's successor. */
  lemma BaseFieldIsUsable()
    ensures BaseField().Usable() && 4 * BaseField().exponent == BaseField().prime + 1
  {
    hide Limbs, Base, WordSpan, ParityWeight;
    BaseIs();
    QuarterOf(0x30644e72e131a029, 0xb85045b68181585d, 0x97816a916871ca8d, 0x3c208c16d87cfd47,
              0x0c19139cb84c680a, 0x6e14116da0605617, 0x65e05aa45a1c72a3, 0x4f082305b61f3f52);
    LimbsBelow(0x30644e72e131a029, 0xb85045b68181585d, 0x97816a916871ca8d, 0x3c208c16d87cfd47);
    LastLimb(0x30644e72e131a029, 0xb85045b68181585d, 0x97816a916871ca8d, 0x3c208c16d87cfd47);
    WordIsFourLimbs();
    WordIsFourWeights();
  }

  /** In the program's own field, taken to be prime, the walk stops at the first candidate that is
      the x of a point of the curve. */
  lemma WalkFindsFirstPoint(hash: seq<Byte>, k: nat)
    requires Prime(BaseField().prime)
    ensures BaseField().Usable()
    ensures IsFirst(hash, k, BaseField()) <==>
      HasPointAt(hash, k, BaseField()) && forall j :: 0 <= j < k ==> !HasPointAt(hash, j, BaseField())
  {
    hide BaseField, Prime, IsFirst, HasPointAt;
    BaseFieldIsUsable();
    FirstIsFirstPoint(hash, k, BaseField());
  }
}
