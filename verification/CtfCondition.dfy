/** The on-chain state of one condition: how it is read, and how it may change between blocks. */
module CtfCondition {
  import opened Words

  datatype Status = Unprepared | PreparedUnresolved | ResolvedBinary | NonBinary

  /** A condition as proved at the end of a block. */
  datatype Proof = Proof(status: Status, count: U256, denominator: U256, numerators: Pair) {
    predicate Interpreted() { Interpret(count, denominator, numerators) == Some(status) }
  }

  /** Reads the stored words; missing when no condition can be stored like that. */
  function Interpret(count: U256, denominator: U256, numerators: Pair): Option<Status> {
    if count == 0 then
      if denominator == 0 && numerators == Pair(0, 0) then Some(Unprepared) else None
    else if count == 1 || count > 256 then
      None
    else
      var sum := CheckedAdd(numerators.first, numerators.second);
      if denominator == 0 && numerators != Pair(0, 0) then
        None
      else if denominator != 0
              && (sum.None? || sum.value > denominator || (count == 2 && sum.value != denominator)) then
        None
      else if count == 2 then
        Some(if denominator == 0 then PreparedUnresolved else ResolvedBinary)
      else
        Some(NonBinary)
  }

  predicate TransitionIsValid(before: Proof, after: Proof) {
    if before.status.Unprepared? then
      true
    else if after.status.Unprepared? || before.count != after.count then
      false
    else
      match before.status
      case Unprepared => true
      case PreparedUnresolved => after.status.PreparedUnresolved? || after.status.ResolvedBinary?
      case ResolvedBinary =>
        after.status.ResolvedBinary? && before.denominator == after.denominator && before.numerators == after.numerators
      case NonBinary =>
        after.status.NonBinary? &&
        if before.denominator == 0 then
          after.denominator == 0
          || (after.numerators.first >= before.numerators.first && after.numerators.second >= before.numerators.second)
        else
          before.denominator == after.denominator && before.numerators == after.numerators
  }

  /** Adjacent checks cover every pair of blocks: valid transitions compose. */
  lemma TransitionsCompose(a: Proof, b: Proof, c: Proof)
    requires a.Interpreted() && TransitionIsValid(a, b) && TransitionIsValid(b, c)
    ensures TransitionIsValid(a, c)
  {
    hide WordSpan;
  }

  /** They compose only because proofs are interpreted: here the first one is not. */
  lemma UninterpretedNeedNotCompose()
    ensures exists a: Proof, b: Proof, c: Proof ::
      !a.Interpreted() && TransitionIsValid(a, b) && TransitionIsValid(b, c) && !TransitionIsValid(a, c)
  {
    hide WordSpan;
    var a, b := Proof(NonBinary, 3, 0, Pair(5, 5)), Proof(NonBinary, 3, 0, Pair(0, 0));
    var c := Proof(NonBinary, 3, 1, Pair(1, 0));
    assert !a.Interpreted() && TransitionIsValid(a, b) && TransitionIsValid(b, c) && !TransitionIsValid(a, c);
  }

  predicate Prepared(status: Status) { status.PreparedUnresolved? || status.ResolvedBinary? }

  ghost predicate Adjacent(proofs: seq<Proof>) {
    forall k :: 0 <= k < |proofs| - 1 ==> TransitionIsValid(proofs[k], proofs[k + 1])
  }

  ghost predicate AllInterpreted(proofs: seq<Proof>) { forall p :: p in proofs ==> p.Interpreted() }

  lemma {:induction false} AdjacentCoversAll(proofs: seq<Proof>, i: nat, j: nat)
    requires Adjacent(proofs) && AllInterpreted(proofs) && i < j < |proofs|
    ensures TransitionIsValid(proofs[i], proofs[j])
    decreases j - i
  {
    if i + 1 < j {
      AdjacentCoversAll(proofs, i, j - 1);
      assert proofs[i] in proofs && TransitionIsValid(proofs[j - 1], proofs[j - 1 + 1]);
      TransitionsCompose(proofs[i], proofs[j - 1], proofs[j]);
    }
  }

  /** Once prepared always prepared, and once resolved the payout never changes. */
  lemma PreparedStays(proofs: seq<Proof>, i: nat, j: nat)
    requires Adjacent(proofs) && AllInterpreted(proofs) && i <= j < |proofs|
    ensures Prepared(proofs[i].status) ==> Prepared(proofs[j].status)
    ensures proofs[i].status.ResolvedBinary? ==> proofs[j] == proofs[i]
  {
    hide WordSpan;
    if i < j {
      AdjacentCoversAll(proofs, i, j);
      assert proofs[i] in proofs && proofs[j] in proofs;
    }
  }

  // ----- the contract's own steps

  /** The stored words of a condition. */
  datatype Stored = Stored(count: U256, denominator: U256, numerators: Pair)

  function StoredOf(p: Proof): Stored { Stored(p.count, p.denominator, p.numerators) }

  const BLANK := Stored(0, 0, Pair(0, 0))

  /** Preparing sets the number of outcomes, once. */
  ghost predicate Prepares(a: Stored, b: Stored) {
    a == BLANK && 2 <= b.count <= 256 && b.denominator == 0 && b.numerators == Pair(0, 0)
  }

  /** Reporting sets the payouts of a prepared condition, once; the denominator is the sum of all
      numerators, of which the first two are read. */
  ghost predicate Reports(a: Stored, b: Stored) {
    && 2 <= a.count == b.count && a.denominator == 0 && b.denominator > 0
    && (if a.count == 2 then b.numerators.first + b.numerators.second == b.denominator
        else b.numerators.first + b.numerators.second <= b.denominator)
  }

  /** What the contract can make of stored words, in any number of steps. */
  ghost predicate Reaches(a: Stored, b: Stored) {
    a == b || Prepares(a, b) || Reports(a, b) || (exists c :: Prepares(a, c) && Reports(c, b))
  }

  lemma PreparedThenReported(a: Stored, b: Stored)
    ensures (exists c :: Prepares(a, c) && Reports(c, b)) <==>
      a == BLANK && b.count <= 256 && Reports(Stored(b.count, 0, Pair(0, 0)), b)
  {
    hide WordSpan;
    if a == BLANK && b.count <= 256 && Reports(Stored(b.count, 0, Pair(0, 0)), b) {
      assert Prepares(a, Stored(b.count, 0, Pair(0, 0)));
    }
  }

  /** Words are read as a condition exactly when the contract can have stored them. */
  lemma ReadIsReachable(w: Stored)
    ensures Interpret(w.count, w.denominator, w.numerators).Some? <==> Reaches(BLANK, w)
  {
    PreparedThenReported(BLANK, w);
    hide WordSpan;
  }

  /** Between two conditions that are read, a transition is valid exactly when the contract can
      make it. */
  lemma ValidIsReachable(a: Proof, b: Proof)
    requires a.Interpreted() && b.Interpreted()
    ensures TransitionIsValid(a, b) <==> Reaches(StoredOf(a), StoredOf(b))
  {
    PreparedThenReported(StoredOf(a), StoredOf(b));
    hide WordSpan;
  }

  /** What the four readings mean. */
  lemma StatusIs(p: Proof)
    requires p.Interpreted()
    ensures p.status.Unprepared? <==> p.count == 0
    ensures p.status.PreparedUnresolved? <==> p.count == 2 && p.denominator == 0
    ensures p.status.ResolvedBinary? <==> p.count == 2 && p.denominator > 0
    ensures p.status.NonBinary? <==> p.count > 2
  {
    hide WordSpan;
  }
}
