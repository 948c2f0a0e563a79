/** Counts how two pages of trade candidates overlap. Only occurrences are compared: equal rows
    are interchangeable, and overlap is no proof of identity. */
module Overlap {
  import opened Words

  const MAX_CANDIDATE_ROWS: nat := 20_000

  /** A normalised row; `fields` stands for everything but its time. */
  datatype Candidate = Candidate(timestamp: int, fields: nat)

  datatype Error = RowLimit | Invalid(row: nat) | Ordering(row: nat) | Baseline

  datatype Overlap = Overlap(
    matched: nat, missingPrevious: nat, repeatedPrevious: nat, repeatedRefreshed: nat,
    unmatchedNewer: nat, unmatchedAtOrBeforeHead: nat, extendedBelow: bool)

  datatype Outcome = Compared(overlap: Overlap) | Failed(error: Error)

  /** A raw row normalises to a candidate or not at all. */
  type Raw = Option<Candidate>

  ghost predicate AllValid(rows: seq<Raw>) { forall i :: 0 <= i < |rows| ==> rows[i].Some? }

  ghost predicate FirstInvalid(rows: seq<Raw>, n: nat) { n < |rows| && rows[n].None? && AllValid(rows[..n]) }

  ghost function Values(rows: seq<Raw>): seq<Candidate>
    requires AllValid(rows)
  {
    seq(|rows|, i requires 0 <= i < |rows| => rows[i].value)
  }

  /** Newest first; equal times may stand in any order. */
  ghost predicate NewestFirst(rows: seq<Candidate>) {
    forall i, j :: 0 <= i < j < |rows| ==> rows[i].timestamp >= rows[j].timestamp
  }

  ghost predicate FirstDisorder(rows: seq<Candidate>, n: nat) {
    0 < n < |rows| && NewestFirst(rows[..n]) && rows[n - 1].timestamp < rows[n].timestamp
  }

  /** How many rows are newer than a time. */
  ghost function Newer(rows: seq<Candidate>, head: int): nat {
    if rows == [] then 0
    else Newer(rows[..|rows| - 1], head) + if rows[|rows| - 1].timestamp > head then 1 else 0
  }

  ghost predicate IsNewest(rows: seq<Candidate>, head: int) {
    (exists row :: row in rows && row.timestamp == head) && forall row :: row in rows ==> row.timestamp <= head
  }

  ghost predicate IsOldest(rows: seq<Candidate>, oldest: int) {
    (exists row :: row in rows && row.timestamp == oldest) && forall row :: row in rows ==> oldest <= row.timestamp
  }

  ghost function Distinct(rows: seq<Candidate>): set<Candidate> { set row | row in rows }

  method Normalize(raw: seq<Raw>) returns (rows: seq<Candidate>, bad: Option<nat>)
    ensures bad.None? <==> AllValid(raw)
    ensures bad.None? ==> rows == Values(raw)
    ensures bad.Some? ==> FirstInvalid(raw, bad.value)
  {
    rows, bad := [], None;
    for i := 0 to |raw|
      invariant AllValid(raw[..i]) && rows == Values(raw[..i])
    {
      if raw[i].None? { return rows, Some(i); }
      assert raw[..i + 1] == raw[..i] + [raw[i]];
      rows := rows + [raw[i].value];
    }
    assert raw[..|raw|] == raw;
  }

  /** The first row that is newer than the one before it. */
  method FindDisorder(rows: seq<Candidate>) returns (bad: Option<nat>)
    ensures bad.None? <==> NewestFirst(rows)
    ensures bad.Some? ==> FirstDisorder(rows, bad.value)
  {
    if rows == [] { return None; }
    for i := 1 to |rows|
      invariant NewestFirst(rows[..i])
    {
      if rows[i - 1].timestamp < rows[i].timestamp { return Some(i); }
      assert forall k :: 0 <= k < i ==> rows[..i][k].timestamp >= rows[..i][i - 1].timestamp;
    }
    assert rows[..|rows|] == rows;
    bad := None;
  }

  /** Newest and oldest time of a page. */
  method Bounds(rows: seq<Candidate>) returns (newest: int, oldest: int)
    requires rows != []
    ensures IsNewest(rows, newest) && IsOldest(rows, oldest)
  {
    newest, oldest := rows[0].timestamp, rows[0].timestamp;
    for i := 1 to |rows|
      invariant IsNewest(rows[..i], newest) && IsOldest(rows[..i], oldest)
    {
      var t := rows[i].timestamp;
      assert rows[..i + 1] == rows[..i] + [rows[i]];
      ghost var a :| a in rows[..i] && a.timestamp == newest;
      ghost var b :| b in rows[..i] && b.timestamp == oldest;
      assert a in rows[..i + 1] && b in rows[..i + 1] && rows[i] in rows[..i + 1];
      newest := if t > newest then t else newest;
      oldest := if t < oldest then t else oldest;
    }
    assert rows[..|rows|] == rows;
  }

  /** How often each row occurs. */
  method CountRows(rows: seq<Candidate>) returns (counts: map<Candidate, nat>)
    ensures counts.Keys == Distinct(rows)
    ensures forall row :: row in counts ==> counts[row] == multiset(rows)[row]
  {
    counts := map[];
    for i := 0 to |rows|
      invariant counts.Keys == Distinct(rows[..i])
      invariant forall row :: row in counts ==> counts[row] == multiset(rows[..i])[row]
    {
      var row := rows[i];
      assert rows[..i + 1] == rows[..i] + [row];
      assert row !in rows[..i] ==> multiset(rows[..i])[row] == 0;
      counts := counts[row := if row in counts then counts[row] + 1 else 1];
    }
    assert rows[..|rows|] == rows;
  }

  /** Whether some row is older than a time. */
  predicate HasOlder(rows: seq<Candidate>, oldest: int) { exists row :: row in rows && row.timestamp < oldest }

  /** The occurrences of the first rows that the previous page also has. */
  ghost function Common(previous: seq<Candidate>, refreshed: seq<Candidate>): multiset<Candidate> {
    multiset(previous) * multiset(refreshed)
  }

  /** One more row is common exactly when the previous page still has an occurrence to spare. */
  lemma CommonMore(previous: seq<Candidate>, seen: seq<Candidate>, row: Candidate)
    ensures Common(previous, seen + [row])
      == Common(previous, seen)
         + if Common(previous, seen)[row] < multiset(previous)[row] then multiset{row} else multiset{}
    ensures Common(previous, seen)[row] <= multiset(previous)[row]
  {
  }

  lemma CommonWithin(previous: seq<Candidate>, seen: seq<Candidate>)
    ensures |Common(previous, seen)| <= |previous| && |Common(previous, seen)| <= |seen|
  {
    var rest := multiset(previous) - Common(previous, seen);
    assert multiset(previous) == Common(previous, seen) + rest;
    var others := multiset(seen) - Common(previous, seen);
    assert multiset(seen) == Common(previous, seen) + others;
  }

  /** The running counts of the comparison after some refreshed rows. */
  datatype Tally = Tally(remaining: map<Candidate, nat>, matched: nat, missing: nat, newer: nat, atOrBefore: nat)

  ghost predicate Tallied(t: Tally, previous: seq<Candidate>, seen: seq<Candidate>, head: int) {
    && t.remaining.Keys == Distinct(previous)
    && (forall row :: row in t.remaining ==>
          t.remaining[row] == multiset(previous)[row] - Common(previous, seen)[row])
    && t.matched == |Common(previous, seen)| && t.missing + t.matched == |previous|
    && t.newer + t.atOrBefore + t.matched == |seen| && t.newer == Newer(seen, head)
  }

  lemma NewerMore(seen: seq<Candidate>, row: Candidate, head: int)
    ensures Newer(seen + [row], head) == Newer(seen, head) + if row.timestamp > head then 1 else 0
  {
    assert (seen + [row])[..|seen|] == seen;
  }

  method TallyRow(t: Tally, row: Candidate, ghost previous: seq<Candidate>, ghost seen: seq<Candidate>, head: int)
    returns (r: Tally)
    requires Tallied(t, previous, seen, head) && IsNewest(previous, head)
    ensures Tallied(r, previous, seen + [row], head)
  {
    hide Common, Newer;
    CommonMore(previous, seen, row);
    CommonWithin(previous, seen + [row]);
    NewerMore(seen, row, head);
    assert row !in previous ==> multiset(previous)[row] == 0;
    if row in t.remaining && t.remaining[row] > 0 {
      r := t.(remaining := t.remaining[row := t.remaining[row] - 1],
              matched := t.matched + 1, missing := t.missing - 1);
    } else if row.timestamp > head {
      r := t.(newer := t.newer + 1);
    } else {
      r := t.(atOrBefore := t.atOrBefore + 1);
    }
  }

  /** What the comparison says, as facts about the two pages as multisets. */
  ghost predicate Describes(o: Overlap, previous: seq<Candidate>, refreshed: seq<Candidate>) {
    && o.matched == |Common(previous, refreshed)|
    && o.missingPrevious == |previous| - o.matched
    && o.unmatchedNewer + o.unmatchedAtOrBeforeHead == |refreshed| - o.matched
    && o.repeatedPrevious == |previous| - |Distinct(previous)|
    && o.repeatedRefreshed == |refreshed| - |Distinct(refreshed)|
    && (forall head :: IsNewest(previous, head) ==> o.unmatchedNewer == Newer(refreshed, head))
    && (forall oldest :: IsOldest(previous, oldest) ==> o.extendedBelow == HasOlder(refreshed, oldest))
  }

  lemma {:induction false} DistinctAtMost(rows: seq<Candidate>)
    ensures |Distinct(rows)| <= |rows|
  {
    if rows == [] {
      assert Distinct(rows) == {};
    } else {
      var front, last := rows[..|rows| - 1], rows[|rows| - 1];
      DistinctAtMost(front);
      assert rows == front + [last];
      assert Distinct(rows) == Distinct(front) + {last};
    }
  }

  lemma BoundsAreUnique(rows: seq<Candidate>, a: int, b: int)
    ensures IsNewest(rows, a) && IsNewest(rows, b) ==> a == b
    ensures IsOldest(rows, a) && IsOldest(rows, b) ==> a == b
  {
  }

  method CountOverlap(previous: seq<Candidate>, refreshed: seq<Candidate>) returns (o: Overlap)
    requires previous != []
    ensures Describes(o, previous, refreshed)
  {
    hide Common, IsNewest, IsOldest, Distinct, Newer, HasOlder;
    var head, oldest := Bounds(previous);
    var remaining := CountRows(previous);
    var refreshedCounts := CountRows(refreshed);
    DistinctAtMost(previous);
    DistinctAtMost(refreshed);
    assert refreshed[..0] == [];
    NothingCommon(previous, head);
    var t := Tally(remaining, 0, |previous|, 0, 0);
    for k := 0 to |refreshed|
      invariant Tallied(t, previous, refreshed[..k], head)
    {
      assert refreshed[..k + 1] == refreshed[..k] + [refreshed[k]];
      t := TallyRow(t, refreshed[k], previous, refreshed[..k], head);
    }
    assert refreshed[..|refreshed|] == refreshed;
    o := Overlap(t.matched, t.missing, |previous| - |remaining|, |refreshed| - |refreshedCounts|, t.newer,
                 t.atOrBefore, HasOlder(refreshed, oldest));
    assert |remaining| == |remaining.Keys| && |refreshedCounts| == |refreshedCounts.Keys|;
    forall other
      ensures IsNewest(previous, other) ==> other == head
      ensures IsOldest(previous, other) ==> other == oldest
    {
      BoundsAreUnique(previous, head, other);
      BoundsAreUnique(previous, oldest, other);
    }
  }

  lemma NothingCommon(previous: seq<Candidate>, head: int)
    ensures Common(previous, []) == multiset{} && Newer([], head) == 0
  {
  }

  /** What the comparison asks of its pages. */
  ghost predicate Comparable(previous: seq<Raw>, refreshed: seq<Raw>) {
    && |previous| <= 20_000 && |refreshed| <= 20_000 && previous != []
    && AllValid(previous) && AllValid(refreshed)
    && NewestFirst(Values(previous)) && NewestFirst(Values(refreshed))
  }

  ghost predicate WithinLimit(previous: seq<Raw>, refreshed: seq<Raw>) {
    |previous| <= 20_000 && |refreshed| <= 20_000
  }

  /** What each error says. They come in this order: too many rows, then the first row that does
      not normalise, then the first row newer than the one before it, the previous page before the
      refreshed one each time, and at last a missing baseline. */
  ghost predicate Fails(e: Error, previous: seq<Raw>, refreshed: seq<Raw>) {
    match e
    case RowLimit => !WithinLimit(previous, refreshed)
    case Invalid(row) =>
      WithinLimit(previous, refreshed)
      && (FirstInvalid(previous, row) || (AllValid(previous) && FirstInvalid(refreshed, row)))
    case Ordering(row) =>
      WithinLimit(previous, refreshed) && AllValid(previous) && AllValid(refreshed)
      && (FirstDisorder(Values(previous), row)
          || (NewestFirst(Values(previous)) && FirstDisorder(Values(refreshed), row)))
    case Baseline =>
      WithinLimit(previous, refreshed) && AllValid(previous) && AllValid(refreshed)
      && NewestFirst(Values(previous)) && NewestFirst(Values(refreshed)) && previous == []
  }

  lemma DisorderIsNotNewestFirst(rows: seq<Candidate>, n: nat)
    requires FirstDisorder(rows, n)
    ensures !NewestFirst(rows) && forall k: nat :: n < k <= |rows| ==> !NewestFirst(rows[..k])
  {
    forall k: nat | n < k <= |rows|
      ensures !NewestFirst(rows[..k])
    {
      assert rows[..k][n - 1].timestamp < rows[..k][n].timestamp;
    }
  }

  lemma OneDisorder(rows: seq<Candidate>, n: nat, m: nat)
    requires FirstDisorder(rows, n) && FirstDisorder(rows, m)
    ensures n == m
  {
    hide NewestFirst;
    DisorderIsNotNewestFirst(rows, n);
    DisorderIsNotNewestFirst(rows, m);
  }

  lemma OneInvalid(rows: seq<Raw>, n: nat, m: nat)
    requires FirstInvalid(rows, n) && FirstInvalid(rows, m)
    ensures n == m && !AllValid(rows)
  {
    ValidUpTo(rows, n, m);
    ValidUpTo(rows, m, n);
    ValidUpTo(rows, n, |rows|);
    assert rows[..|rows|] == rows;
  }

  lemma ValidUpTo(rows: seq<Raw>, n: nat, k: nat)
    requires FirstInvalid(rows, n) && k <= |rows|
    ensures AllValid(rows[..k]) <==> k <= n
  {
    if k > n {
      assert rows[..k][n] == rows[n];
    } else {
      assert rows[..k] == rows[..n][..k];
    }
  }

  /** Two pages are comparable or fail for one reason, which names one row. */
  lemma FailsForOneReason(e: Error, f: Error, previous: seq<Raw>, refreshed: seq<Raw>)
    requires Fails(e, previous, refreshed)
    ensures !Comparable(previous, refreshed)
    ensures Fails(f, previous, refreshed) ==> e == f
  {
    hide NewestFirst, AllValid, FirstInvalid, FirstDisorder;
    forall rows: seq<Raw>, n, m | FirstInvalid(rows, n) && FirstInvalid(rows, m) {
      OneInvalid(rows, n, m);
    }
    forall rows: seq<Candidate>, n, m | FirstDisorder(rows, n) && FirstDisorder(rows, m) {
      OneDisorder(rows, n, m);
    }
    forall rows: seq<Candidate>, n | FirstDisorder(rows, n) {
      DisorderIsNotNewestFirst(rows, n);
    }
  }

  /** Compares two pages, or says why it cannot. */
  method CompareCandidates(previous: seq<Raw>, refreshed: seq<Raw>) returns (r: Outcome)
    ensures r.Compared? <==> Comparable(previous, refreshed)
    ensures r.Compared? ==> Describes(r.overlap, Values(previous), Values(refreshed))
    ensures r.Failed? ==> Fails(r.error, previous, refreshed)
  {
    hide Describes, NewestFirst, FirstInvalid, FirstDisorder;
    if |previous| > MAX_CANDIDATE_ROWS || |refreshed| > MAX_CANDIDATE_ROWS { return Failed(RowLimit); }
    var before, badBefore := Normalize(previous);
    if badBefore.Some? { return Failed(Invalid(badBefore.value)); }
    var after, badAfter := Normalize(refreshed);
    if badAfter.Some? { return Failed(Invalid(badAfter.value)); }
    var disorderBefore := FindDisorder(before);
    if disorderBefore.Some? { return Failed(Ordering(disorderBefore.value)); }
    var disorderAfter := FindDisorder(after);
    if disorderAfter.Some? { return Failed(Ordering(disorderAfter.value)); }
    if before == [] { return Failed(Baseline); }
    var overlap := CountOverlap(before, after);
    r := Compared(overlap);
  }

  /** Overlap is symmetric, and rows of equal time may change places on either page. */
  lemma OverlapIsSymmetric(a: Overlap, b: Overlap, previous: seq<Candidate>, refreshed: seq<Candidate>,
                           otherPrevious: seq<Candidate>, otherRefreshed: seq<Candidate>)
    requires Describes(a, previous, refreshed) && Describes(b, otherRefreshed, otherPrevious)
    requires multiset(previous) == multiset(otherPrevious) && multiset(refreshed) == multiset(otherRefreshed)
    ensures a.matched == b.matched
    ensures a.unmatchedNewer + a.unmatchedAtOrBeforeHead == b.missingPrevious
  {
    assert Common(previous, refreshed) == Common(otherRefreshed, otherPrevious);
    assert |multiset(refreshed)| == |multiset(otherRefreshed)|;
  }
}
