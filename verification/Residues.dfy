/** Square roots modulo a prime: for a prime one below a multiple of four, a power of a square is a
    root of it. */
module Residues {
  import opened Arithmetic

  ghost predicate Prime(p: nat) { p >= 2 && forall d :: 2 <= d < p ==> p % d != 0 }

  function Power(a: nat, e: nat): nat { if e == 0 then 1 else Power(a, e - 1) * a }

  /** The same remainder. */
  predicate Same(a: nat, b: nat, p: nat)
    requires p > 0
  {
    a % p == b % p
  }

  // ----- remainders of sums and products

  lemma ModShift(x: int, k: int, p: nat)
    requires p > 0
    ensures (x + k * p) % p == x % p
  {
    var q, r := x / p, x % p;
    assert x == q * p + r;
    Distribute(q, k, p);
    RemainderIs(x + k * p, p, q + k, r);
  }

  lemma RemainderIs(x: int, p: nat, q: int, r: int)
    requires p > 0 && x == q * p + r && 0 <= r < p
    ensures x % p == r
  {
    var d := x / p - q;
    assert x == x / p * p + x % p;
    Distribute(x / p, -q, p);
    assert d * p == r - x % p;
    if d >= 1 {
      Scale(1, d, p);
    } else if d <= -1 {
      Scale(d, -1, p);
    }
  }

  lemma SameProduct(a: nat, b: nat, c: nat, d: nat, p: nat)
    requires p > 0 && Same(a, b, p) && Same(c, d, p)
    ensures Same(a * c, b * d, p)
  {
    SameFactor(a, b, c, p);
    SameFactor(c, d, b, p);
  }

  lemma SameFactor(a: nat, b: nat, c: nat, p: nat)
    requires p > 0 && Same(a, b, p)
    ensures Same(a * c, b * c, p)
  {
    var q := a / p - b / p;
    assert a == a / p * p + a % p && b == b / p * p + b % p;
    Distribute(a / p, -(b / p), p);
    assert a == b + q * p;
    Distribute(b, q * p, c);
    assert q * p * c == q * c * p;
    ModShift(b * c, q * c, p);
  }

  lemma SameSum(a: nat, b: nat, c: nat, d: nat, p: nat)
    requires p > 0 && Same(a, b, p) && Same(c, d, p)
    ensures Same(a + c, b + d, p)
  {
    var q, r := a / p - b / p, c / p - d / p;
    assert a == a / p * p + a % p && b == b / p * p + b % p;
    assert c == c / p * p + c % p && d == d / p * p + d % p;
    Distribute(a / p, -(b / p), p);
    Distribute(c / p, -(d / p), p);
    Distribute(q, r, p);
    assert a + c == b + d + (q + r) * p;
    ModShift(b + d, q + r, p);
  }

  // ----- powers

  lemma Associate(x: int, y: int, z: int)
    ensures x * y * z == x * (y * z)
  {
  }

  lemma {:induction false} PowerAdds(a: nat, e: nat, f: nat)
    ensures Power(a, e + f) == Power(a, e) * Power(a, f)
  {
    if f > 0 {
      PowerAdds(a, e, f - 1);
      Associate(Power(a, e), Power(a, f - 1), a);
    }
  }

  lemma {:induction false} PowerOfProduct(a: nat, b: nat, e: nat)
    ensures Power(a * b, e) == Power(a, e) * Power(b, e)
  {
    if e > 0 {
      PowerOfProduct(a, b, e - 1);
      Interchange(Power(a, e - 1), Power(b, e - 1), a, b);
    }
  }

  lemma Interchange(x: int, y: int, a: int, b: int)
    ensures x * y * (a * b) == (x * a) * (y * b)
  {
    assert y * (a * b) == a * (y * b);
    assert x * (y * (a * b)) == x * y * (a * b) && x * (a * (y * b)) == (x * a) * (y * b);
  }

  lemma {:induction false} SamePowers(a: nat, b: nat, e: nat, p: nat)
    requires p > 0 && Same(a, b, p)
    ensures Same(Power(a, e), Power(b, e), p)
  {
    if e > 0 {
      SamePowers(a, b, e - 1, p);
      SameProduct(Power(a, e - 1), Power(b, e - 1), a, b, p);
    }
  }

  // ----- binomials

  function Choose(n: nat, k: nat): nat {
    if k == 0 then 1 else if n == 0 then 0 else Choose(n - 1, k - 1) + Choose(n - 1, k)
  }

  lemma {:induction false} ChooseTooMany(n: nat, k: nat)
    requires k > n
    ensures Choose(n, k) == 0
  {
    if n > 0 {
      ChooseTooMany(n - 1, k - 1);
      ChooseTooMany(n - 1, k);
    }
  }

  lemma {:induction false} ChooseAll(n: nat)
    ensures Choose(n, n) == 1
  {
    if n > 0 {
      ChooseAll(n - 1);
      ChooseTooMany(n - 1, n);
    }
  }

  lemma {:induction false} Absorb(n: nat, k: nat)
    requires n > 0 && k > 0
    ensures k * Choose(n, k) == n * Choose(n - 1, k - 1)
  {
    if n == 1 {
      if k > 1 {
        ChooseTooMany(n, k);
        ChooseTooMany(n - 1, k - 1);
      }
    } else {
      Absorb(n - 1, k);
      if k > 1 {
        Absorb(n - 1, k - 1);
        AbsorbStep(n - 1, k - 1, Choose(n - 1, k - 1), Choose(n - 1, k), Choose(n - 2, k - 2), Choose(n - 2, k - 1));
      } else {
        assert Choose(n, 1) == Choose(n - 1, 0) + Choose(n - 1, 1);
      }
    }
  }

  lemma AbsorbStep(n: nat, k: nat, c: nat, d: nat, e: nat, f: nat)
    requires k * c == n * e && (k + 1) * d == n * f && c == e + f
    ensures (k + 1) * (c + d) == (n + 1) * c
  {
    Distribute(k, 1, c);
    Distribute(n, 1, c);
    assert (k + 1) * (c + d) == (k + 1) * c + (k + 1) * d;
    assert n * (e + f) == n * e + n * f;
  }

  /** The first terms of the expansion of (a + 1) to the n. */
  function Expansion(a: nat, n: nat, k: nat): nat {
    Choose(n, k) * Power(a, k) + if k == 0 then 0 else Expansion(a, n, k - 1)
  }

  lemma {:induction false} ExpansionStep(a: nat, n: nat, k: nat)
    requires k > 0
    ensures Expansion(a, n + 1, k) == Expansion(a, n, k) + a * Expansion(a, n, k - 1)
  {
    var c, d, x := Choose(n, k - 1), Choose(n, k), Power(a, k - 1);
    assert Choose(n + 1, k) == c + d && Power(a, k) == x * a;
    if k > 1 {
      ExpansionStep(a, n, k - 1);
    } else {
      assert Expansion(a, n + 1, 0) == 1 && Expansion(a, n, 0) == 1;
    }
    var rest := if k > 1 then Expansion(a, n, k - 2) else 0;
    assert Expansion(a, n, k - 1) == c * x + rest;
    assert Expansion(a, n + 1, k - 1) == Expansion(a, n, k - 1) + a * rest;
    assert Expansion(a, n + 1, k) == (c + d) * (x * a) + Expansion(a, n + 1, k - 1);
    assert Expansion(a, n, k) == d * (x * a) + Expansion(a, n, k - 1);
    hide Expansion, Choose, Power;
    TermStep(a, c, d, x, rest);
  }

  lemma TermStep(a: int, c: int, d: int, x: int, rest: int)
    ensures (c + d) * (x * a) == d * (x * a) + c * (x * a)
    ensures a * (c * x + rest) == c * (x * a) + a * rest
  {
    Distribute(c, d, x * a);
    assert a * (c * x) == c * (x * a);
  }

  lemma {:induction false} ExpansionIsPower(a: nat, n: nat)
    ensures Expansion(a, n, n) == Power(a + 1, n)
  {
    hide Expansion, Power, Choose;
    Unfolded(a, n);
    if n > 0 {
      ExpansionIsPower(a, n - 1);
      ExpansionStep(a, n - 1, n);
      LastTermVanishes(a, n - 1);
      Distribute(1, a, Expansion(a, n - 1, n - 1));
    }
  }

  lemma Unfolded(a: nat, n: nat)
    ensures n == 0 ==> Expansion(a, n, n) == 1 && Power(a + 1, n) == 1
    ensures n > 0 ==> Power(a + 1, n) == (1 + a) * Power(a + 1, n - 1)
  {
  }

  lemma LastTermVanishes(a: nat, n: nat)
    ensures Expansion(a, n, n + 1) == Expansion(a, n, n)
  {
    ChooseTooMany(n, n + 1);
    hide Power;
    assert Expansion(a, n, n + 1) == Choose(n, n + 1) * Power(a, n + 1) + Expansion(a, n, n);
  }

  // ----- the little theorem of Fermat

  /** A prime that divides k * c for a k below it divides c. */
  lemma {:induction false} PrimeDivides(k: nat, c: nat, p: nat)
    requires Prime(p) && 0 < k < p && (k * c) % p == 0
    ensures c % p == 0
    decreases k
  {
    if k > 1 {
      var q, r := p / k, p % k;
      assert p == q * k + r;
      var m := (k * c) / p;
      assert k * c == m * p;
      assert r * c == c * p - q * (k * c) by { Distribute(q * k, r, c); assert q * k * c == q * (k * c); }
      assert q * (m * p) == q * m * p;
      Distribute(c, -(q * m), p);
      assert r * c == 0 + (c - q * m) * p;
      ModShift(0, c - q * m, p);
      PrimeDivides(r, c, p);
    }
  }

  lemma ChooseVanishes(k: nat, p: nat)
    requires Prime(p) && 0 < k < p
    ensures Choose(p, k) % p == 0
  {
    hide Choose;
    Absorb(p, k);
    ModShift(0, Choose(p - 1, k - 1), p);
    assert k * Choose(p, k) == 0 + Choose(p - 1, k - 1) * p;
    PrimeDivides(k, Choose(p, k), p);
  }

  lemma {:induction false} MiddleTermsVanish(a: nat, k: nat, p: nat)
    requires Prime(p) && k < p
    ensures Same(Expansion(a, p, k), 1, p)
  {
    hide Choose, Power, Prime;
    if k == 0 {
      FirstTerm(a, p);
    } else {
      MiddleTermsVanish(a, k - 1, p);
      ChooseVanishes(k, p);
      SameFactor(Choose(p, k), 0, Power(a, k), p);
      SameSum(Choose(p, k) * Power(a, k), 0, Expansion(a, p, k - 1), 1, p);
    }
  }

  lemma FirstTerm(a: nat, n: nat)
    ensures Expansion(a, n, 0) == 1
  {
  }

  /** Raising to the prime leaves the remainder as it is. */
  lemma {:induction false} Fermat(a: nat, p: nat)
    requires Prime(p)
    ensures Same(Power(a, p), a, p)
  {
    if a == 0 {
      assert Power(0, p) == Power(0, p - 1) * 0;
    } else {
      Fermat(a - 1, p);
      ExpansionIsPower(a - 1, p);
      MiddleTermsVanish(a - 1, p - 1, p);
      ChooseAll(p);
      SameSum(Power(a - 1, p), a - 1, Expansion(a - 1, p, p - 1), 1, p);
    }
  }

  /** The quarter power of a square is a root of it. */
  lemma QuarterPowerIsRoot(y: nat, c: nat, e: nat, p: nat)
    requires Prime(p) && 4 * e == p + 1 && Same(y * y, c, p)
    ensures Same(Power(c, e) * Power(c, e), c, p)
  {
    PowerAdds(c, e, e);
    SamePowers(y * y, c, e + e, p);
    PowerOfProduct(y, y, e + e);
    PowerAdds(y, e + e, e + e);
    assert e + e + (e + e) == p + 1;
    PowerAdds(y, p, 1);
    assert Power(y, 1) == y;
    Fermat(y, p);
    SameFactor(Power(y, p), y, y, p);
  }
}
