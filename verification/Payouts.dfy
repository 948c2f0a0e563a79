/** Redemption through normalised results against redemption through the raw payout vector. */
module Payouts {
  import opened Arithmetic
  import opened Words
  import opened ModuleCalls
  import opened Migration
  import CtfCondition
  import CtfOperations
  import ModuleOperations

  const SCALE: nat := 1_000_000

  /** A share s of m below n of d gives a smaller floor. */
  lemma SmallerShare(a: nat, s: nat, m: nat, n: nat, d: nat)
    requires m > 0 && d > 0 && s * d <= n * m
    ensures a * s / m <= a * n / d
  {
    var x, y := a * s / m, a * n / d;
    FloorBounds(a * s, m);
    FloorBounds(a * n, d);
    if y < x {
      calc {
        (a * n) * m;
      <  { Stretch(a * n, (y + 1) * d, m); }
        (y + 1) * d * m;
      <= { Scale(y + 1, x, d * m); Regroup(y + 1, d, m); Regroup(x, m, d); }
        x * m * d;
      <= { Scale(x * m, a * s, d); }
        (a * s) * d;
      == { Regroup(a, s, d); }
        a * (s * d);
      <= { ScaleLeft(s * d, n * m, a); }
        a * (n * m);
      == { Regroup(a, n, m); }
        (a * n) * m;
      }
    }
  }

  lemma Stretch(a: int, b: int, k: int)
    requires a < b && k > 0
    ensures a * k < b * k
  {
  }

  lemma ScaleLeft(a: int, b: int, k: int)
    requires a <= b && k >= 0
    ensures k * a <= k * b
  {
  }

  lemma Regroup(a: int, b: int, c: int)
    ensures a * b * c == a * (b * c) && a * b * c == a * c * b && a * (b * c) == a * (c * b)
  {
  }

  /** Two shares that differ by less than one part in m give floors that differ by less than
      a / m + 1. The larger share is n of d here and s of m in the next lemma. */
  lemma CloseFromAbove(a: nat, s: nat, m: nat, n: nat, d: nat)
    requires m > 0 && d > 0 && n * m <= (s + 1) * d
    ensures (a * n / d - a * s / m) * m < a + m
  {
    var x, y := a * s / m, a * n / d;
    FloorBounds(a * s, m);
    FloorBounds(a * n, d);
    calc {
      y * m * d;
    == { Regroup(y, m, d); }
      y * d * m;
    <= { Scale(y * d, a * n, m); }
      (a * n) * m;
    == { Regroup(a, n, m); }
      a * (n * m);
    <= { ScaleLeft(n * m, (s + 1) * d, a); }
      a * ((s + 1) * d);
    == { Regroup(a, s + 1, d); }
      a * (s + 1) * d;
    }
    CancelFactor(y * m, a * (s + 1), d);
    Distribute(s, 1, a);
    Distribute(x, 1, m);
    Distribute(y, -x, m);
  }

  lemma CloseFromBelow(a: nat, s: nat, m: nat, n: nat, d: nat)
    requires m > 0 && d > 0 && s * d <= n * m + d
    ensures (a * s / m - a * n / d) * m < a + m
  {
    var x, y := a * n / d, a * s / m;
    FloorBounds(a * s, m);
    FloorBounds(a * n, d);
    calc {
      y * m * d;
    <= { Scale(y * m, a * s, d); }
      (a * s) * d;
    == { Regroup(a, s, d); }
      a * (s * d);
    <= { ScaleLeft(s * d, n * m + d, a); }
      a * (n * m + d);
    <  { Raise(a, n, m, d, x); }
      ((x + 1) * m + a) * d;
    }
    if y * m >= (x + 1) * m + a { Scale((x + 1) * m + a, y * m, d); }
    Distribute(x, 1, m);
    Distribute(y, -x, m);
  }

  lemma Raise(a: nat, n: nat, m: nat, d: nat, x: nat)
    requires m > 0 && a * n < (x + 1) * d
    ensures a * (n * m + d) < ((x + 1) * m + a) * d
  {
    Distribute(n * m, d, a);
    Regroup(a, n, m);
    Stretch(a * n, (x + 1) * d, m);
    Regroup(x + 1, d, m);
    Distribute((x + 1) * m, a, d);
  }

  /** Two complementary shares of an amount lose at most one unit to rounding. */
  lemma BothOutcomes(a: nat, n0: nat, n1: nat, d: nat)
    requires d > 0 && n0 + n1 == d
    ensures var both := a * n0 / d + a * n1 / d;
      both == a || both == a - 1
  {
    var x, y := a * n0 / d, a * n1 / d;
    FloorBounds(a * n0, d);
    FloorBounds(a * n1, d);
    assert a * n0 + a * n1 == a * d;
    Distribute(x, y, d);
    CancelFactor(x + y, a, d);
    if x + y < a - 1 {
      Scale(x + y + 2, a, d);
      Distribute(x + y, 2, d);
    }
  }

  /** What a normalisation keeps of a payout vector, in whole parts of a million. */
  lemma NormalizedShares(raw: Pair)
    requires Normalize(raw).Some?
    ensures var d, s := raw.first + raw.second, Normalize(raw).value;
      && d > 0 && s.first + s.second == 1_000_000
      && s.first * d <= raw.first * 1_000_000 <= (s.first + 1) * d
      && raw.second * 1_000_000 <= s.second * d <= raw.second * 1_000_000 + d
  {
    hide WordSpan;
    var d, s := raw.first + raw.second, Normalize(raw).value;
    FloorBounds(raw.first * SCALE, d);
    Distribute(s.first, 1, d);
    Distribute(s.first, s.second, d);
    Distribute(raw.first, raw.second, SCALE);
  }

  /** Redeeming an amount through the normalised results never pays more than the raw rule on
      the first outcome and never less on the second; each differs by less than a millionth of
      the amount plus one; both outcomes together lose at most one unit under either rule. */
  lemma NormalizedPayoutsAreClose(raw: Pair, a: nat)
    requires Normalize(raw).Some?
    ensures var d, s := raw.first + raw.second, Normalize(raw).value;
      && d > 0
      && a * s.first / SCALE <= a * raw.first / d
      && a * raw.second / d <= a * s.second / SCALE
      && (a * raw.first / d - a * s.first / SCALE) * SCALE < a + SCALE
      && (a * s.second / SCALE - a * raw.second / d) * SCALE < a + SCALE
      && a - 1 <= a * s.first / SCALE + a * s.second / SCALE <= a
      && a - 1 <= a * raw.first / d + a * raw.second / d <= a
  {
    hide Normalize, WordSpan;
    NormalizedShares(raw);
    var d, s := raw.first + raw.second, Normalize(raw).value;
    SmallerShare(a, s.first, SCALE, raw.first, d);
    SmallerShare(a, raw.second, d, s.second, SCALE);
    CloseFromAbove(a, s.first, SCALE, raw.first, d);
    CloseFromBelow(a, s.second, SCALE, raw.second, d);
    BothOutcomes(a, s.first, s.second, SCALE);
    BothOutcomes(a, raw.first, raw.second, d);
  }

  // ----- the stored result, and what the replays pay

  /** A stored result must be the normalised payout of the resolved binary condition. */
  predicate StoredResultIsValid(stored: Pair, ctf: CtfCondition.Proof) {
    && CheckedAdd(stored.first, stored.second) == Some(SCALE)
    && ctf.status.ResolvedBinary?
    && CheckedAdd(ctf.numerators.first, ctf.numerators.second) == Some(ctf.denominator) && ctf.denominator != 0
    && Normalize(ctf.numerators) == Some(stored)
  }

  /** For a proof read from the chain, only the last test can fail. */
  lemma StoredResultIsNormalized(stored: Pair, ctf: CtfCondition.Proof)
    requires ctf.Interpreted() && ctf.status.ResolvedBinary?
    ensures StoredResultIsValid(stored, ctf) <==> Normalize(ctf.numerators) == Some(stored)
  {
    hide WordSpan;
    if Normalize(ctf.numerators) == Some(stored) { NormalizedShares(ctf.numerators); }
  }

  /** What the conditional-token contract pays for one outcome alone. */
  ghost function RawShare(amount: U256, ctf: CtfCondition.Proof, i: Side): nat
    requires ctf.denominator > 0
  {
    CtfOperations.Share(Pair(amount, amount), ctf.numerators, ctf.denominator, i)
  }

  /** Redeeming through the module pays at most the contract's share on the first outcome, at
      least that on the second, and differs by less than a millionth of the amount plus one. */
  lemma ModuleRedemptionIsClose(call: ModuleCall, s: ModuleOperations.Setup, stored: Pair, ctf: CtfCondition.Proof)
    requires call.Redeem? && ModuleOperations.Payout(call, s).Right?
    requires s.numerators == Some((stored.first, stored.second)) && StoredResultIsValid(stored, ctf)
    ensures var paid := ModuleOperations.Payout(call, s).value.GetOr(0);
      if call.id == s.IdA() then
        paid <= RawShare(call.amount, ctf, 0) && (RawShare(call.amount, ctf, 0) - paid) * SCALE < call.amount + SCALE
      else
        paid >= RawShare(call.amount, ctf, 1) && (paid - RawShare(call.amount, ctf, 1)) * SCALE < call.amount + SCALE
  {
    hide WordSpan, Normalize;
    NormalizedPayoutsAreClose(ctf.numerators, call.amount);
  }

  /** A whole set redeemed outcome by outcome through the module, or at once by the migration,
      loses at most one unit, so the two never pay further apart than that. */
  lemma WholeSetsPayAlike(first: ModuleCall, second: ModuleCall, s: ModuleOperations.Setup, stored: Pair,
                          ctf: CtfCondition.Proof, setup: Setup)
    requires first.Redeem? && second.Redeem? && first.amount == second.amount
    requires first.id == s.IdA() && second.id != s.IdA()
    requires ModuleOperations.Payout(first, s).Right? && ModuleOperations.Payout(second, s).Right?
    requires s.numerators == Some((stored.first, stored.second)) && StoredResultIsValid(stored, ctf)
    requires setup.numerators == ctf.numerators && setup.denominator == ctf.denominator
    requires RedemptionOf(Pair(first.amount, first.amount), setup).Some?
    ensures var paid := ModuleOperations.Payout(first, s).value.GetOr(0)
                        + ModuleOperations.Payout(second, s).value.GetOr(0);
      var redeemed := RedemptionOf(Pair(first.amount, first.amount), setup).value;
      && first.amount - 1 <= paid <= first.amount && first.amount - 1 <= redeemed <= first.amount
      && redeemed == RawShare(first.amount, ctf, 0) + RawShare(first.amount, ctf, 1)
  {
    hide WordSpan, Normalize;
    NormalizedPayoutsAreClose(ctf.numerators, first.amount);
  }
}
