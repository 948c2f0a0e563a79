/** The comparison of two trade sockets, and the window that recognises replayed fills. */
module Firehose {

  const DUAL_MATCH_MAX_PENDING: nat := 1_024
  const DEDUP_WINDOW_SIZE: nat := 3_000

  /** The exact serialisation of an observation is its key. */
  type Key = nat

  datatype Row = Row(key: Key, body: nat)

  datatype Pending = Pending(row: Row, receivedAt: nat, matched: bool)

  datatype Waiting = Waiting(key: Key, receivedAt: nat)

  // ----- what the two queues hold, as multisets of keys

  ghost function RowKeys(rows: seq<Row>): multiset<Key> {
    if rows == [] then multiset{} else RowKeys(rows[..|rows| - 1]) + multiset{rows[|rows| - 1].key}
  }

  ghost function PendingKeys(queue: seq<Pending>, matched: bool): multiset<Key> {
    if queue == [] then
      multiset{}
    else
      var last := queue[|queue| - 1];
      PendingKeys(queue[..|queue| - 1], matched)
      + if last.matched == matched then multiset{last.row.key} else multiset{}
  }

  ghost function WaitingKeys(queue: seq<Waiting>): multiset<Key> {
    if queue == [] then multiset{} else WaitingKeys(queue[..|queue| - 1]) + multiset{queue[|queue| - 1].key}
  }

  ghost function RowsOf(queue: seq<Pending>): (r: seq<Row>)
    ensures |r| == |queue|
  {
    if queue == [] then [] else RowsOf(queue[..|queue| - 1]) + [queue[|queue| - 1].row]
  }

  lemma RowKeysAppend(rows: seq<Row>, row: Row)
    ensures RowKeys(rows + [row]) == RowKeys(rows) + multiset{row.key}
  {
    assert (rows + [row])[..|rows|] == rows;
  }

  lemma {:induction false} RowKeysConcat(a: seq<Row>, b: seq<Row>)
    ensures RowKeys(a + b) == RowKeys(a) + RowKeys(b)
  {
    if b == [] {
      assert a + b == a;
    } else {
      assert (a + b)[..|a + b| - 1] == a + b[..|b| - 1];
      RowKeysConcat(a, b[..|b| - 1]);
    }
  }

  lemma PendingAppend(queue: seq<Pending>, p: Pending, matched: bool)
    ensures PendingKeys(queue + [p], matched)
      == PendingKeys(queue, matched) + if p.matched == matched then multiset{p.row.key} else multiset{}
    ensures RowsOf(queue + [p]) == RowsOf(queue) + [p.row]
  {
    assert (queue + [p])[..|queue|] == queue;
  }

  lemma WaitingAppend(queue: seq<Waiting>, w: Waiting)
    ensures WaitingKeys(queue + [w]) == WaitingKeys(queue) + multiset{w.key}
  {
    assert (queue + [w])[..|queue|] == queue;
  }

  lemma {:induction false} WaitingConcat(a: seq<Waiting>, b: seq<Waiting>)
    ensures WaitingKeys(a + b) == WaitingKeys(a) + WaitingKeys(b)
  {
    if b == [] {
      assert a + b == a;
    } else {
      assert (a + b)[..|a + b| - 1] == a + b[..|b| - 1];
      WaitingConcat(a, b[..|b| - 1]);
    }
  }

  lemma RemoveWaiting(queue: seq<Waiting>, i: nat)
    requires i < |queue|
    ensures WaitingKeys(queue) == WaitingKeys(queue[..i] + queue[i + 1..]) + multiset{queue[i].key}
  {
    hide WaitingKeys;
    assert queue == queue[..i] + [queue[i]] + queue[i + 1..];
    WaitingConcat(queue[..i] + [queue[i]], queue[i + 1..]);
    WaitingAppend(queue[..i], queue[i]);
    WaitingConcat(queue[..i], queue[i + 1..]);
  }

  /** Marking a row moves its key from the unmatched to the matched. */
  lemma {:induction false} MarkMatched(queue: seq<Pending>, i: nat)
    requires i < |queue| && !queue[i].matched
    ensures var after := queue[i := queue[i].(matched := true)];
      && RowsOf(after) == RowsOf(queue)
      && PendingKeys(after, true) == PendingKeys(queue, true) + multiset{queue[i].row.key}
      && PendingKeys(queue, false) == PendingKeys(after, false) + multiset{queue[i].row.key}
  {
    var n, after := |queue| - 1, queue[i := queue[i].(matched := true)];
    if i == n {
      assert after[..n] == queue[..n];
    } else {
      assert after[..n] == queue[..n][i := queue[..n][i].(matched := true)];
      MarkMatched(queue[..n], i);
    }
  }

  lemma {:induction false} PendingSplits(queue: seq<Pending>)
    ensures RowKeys(RowsOf(queue)) == PendingKeys(queue, true) + PendingKeys(queue, false)
  {
    if queue != [] {
      PendingSplits(queue[..|queue| - 1]);
      RowKeysAppend(RowsOf(queue[..|queue| - 1]), queue[|queue| - 1].row);
    }
  }

  lemma {:induction false} UnmatchedIn(queue: seq<Pending>)
    ensures forall k ::
      k in PendingKeys(queue, false) <==> exists i :: 0 <= i < |queue| && !queue[i].matched && queue[i].row.key == k
  {
    if queue != [] {
      var n := |queue| - 1;
      UnmatchedIn(queue[..n]);
      forall k
        ensures k in PendingKeys(queue, false)
          <==> exists i :: 0 <= i < |queue| && !queue[i].matched && queue[i].row.key == k
      {
        if exists i :: 0 <= i < |queue| && !queue[i].matched && queue[i].row.key == k {
          var i :| 0 <= i < |queue| && !queue[i].matched && queue[i].row.key == k;
          if i < n { assert !queue[..n][i].matched && queue[..n][i].row.key == k; }
        }
        if k in PendingKeys(queue[..n], false) {
          var i :| 0 <= i < n && !queue[..n][i].matched && queue[..n][i].row.key == k;
          assert !queue[i].matched && queue[i].row.key == k;
        }
      }
    }
  }

  lemma {:induction false} WaitingIn(queue: seq<Waiting>)
    ensures forall k :: k in WaitingKeys(queue) <==> exists i :: 0 <= i < |queue| && queue[i].key == k
  {
    if queue != [] {
      var n := |queue| - 1;
      WaitingIn(queue[..n]);
      forall k
        ensures k in WaitingKeys(queue) <==> exists i :: 0 <= i < |queue| && queue[i].key == k
      {
        if exists i :: 0 <= i < |queue| && queue[i].key == k {
          var i :| 0 <= i < |queue| && queue[i].key == k;
          if i < n { assert queue[..n][i].key == k; }
        }
        if k in WaitingKeys(queue[..n]) {
          var i :| 0 <= i < n && queue[..n][i].key == k;
          assert queue[i].key == k;
        }
      }
    }
  }

  // ----- the matcher's invariant, over everything received and emitted

  /** Everything that a matcher has received on its two sockets, and what it has let out. */
  datatype History = History(first: seq<Row>, second: seq<Row>, emitted: seq<Row>)

  ghost predicate Consistent(h: History, primary: seq<Pending>, secondary: seq<Waiting>) {
    && h.first == h.emitted + RowsOf(primary)
    && RowKeys(h.second) == RowKeys(h.emitted) + PendingKeys(primary, true) + WaitingKeys(secondary)
    && NoKeyBoth(primary, secondary)
  }

  /** No key is unmatched in one queue and pending in the other. */
  ghost predicate NoKeyBoth(primary: seq<Pending>, secondary: seq<Waiting>) {
    forall i, j :: 0 <= i < |primary| && 0 <= j < |secondary| && !primary[i].matched ==>
      primary[i].row.key != secondary[j].key
  }

  ghost predicate AllMatched(primary: seq<Pending>) { forall i :: 0 <= i < |primary| ==> primary[i].matched }

  lemma OpenIsUnmatched(primary: seq<Pending>)
    ensures PendingKeys(primary, false) == multiset{} <==> AllMatched(primary)
  {
    UnmatchedIn(primary);
    var open := PendingKeys(primary, false);
    if !AllMatched(primary) {
      var i :| 0 <= i < |primary| && !primary[i].matched;
      assert primary[i].row.key in open;
    } else {
      assert forall k :: k !in open;
    }
  }

  lemma WaitingIsOpen(secondary: seq<Waiting>)
    ensures WaitingKeys(secondary) == multiset{} <==> secondary == []
  {
    if secondary != [] {
      assert secondary[|secondary| - 1].key in WaitingKeys(secondary);
    }
  }

  lemma DisjointAndEqual(open: multiset<Key>, waiting: multiset<Key>)
    requires forall k :: !(k in open && k in waiting)
    ensures open == waiting <==> open == multiset{} && waiting == multiset{}
  {
    if open == waiting {
      assert forall k :: k !in open;
    }
  }

  lemma OpenAndWaitingDisjoint(primary: seq<Pending>, secondary: seq<Waiting>)
    requires NoKeyBoth(primary, secondary)
    ensures forall k :: !(k in PendingKeys(primary, false) && k in WaitingKeys(secondary))
  {
    UnmatchedIn(primary);
    WaitingIn(secondary);
  }

  lemma SumsAgree(out: multiset<Key>, done: multiset<Key>, open: multiset<Key>, waiting: multiset<Key>)
    ensures out + (done + open) == out + done + waiting <==> open == waiting
  {
    if out + (done + open) == out + done + waiting {
      forall k
        ensures open[k] == waiting[k]
      {
        assert (out + (done + open))[k] == (out + done + waiting)[k];
      }
    }
  }

  /** The queues have nothing open exactly when both sockets have shown the same keys, each as
      often; this is where the matcher lets rows out. */
  lemma AgreesWhenNothingOpen(h: History, primary: seq<Pending>, secondary: seq<Waiting>)
    requires Consistent(h, primary, secondary)
    ensures secondary == [] && AllMatched(primary) <==> RowKeys(h.first) == RowKeys(h.second)
  {
    hide RowKeys, PendingKeys, WaitingKeys, AllMatched, NoKeyBoth, RowsOf;
    RowKeysConcat(h.emitted, RowsOf(primary));
    PendingSplits(primary);
    OpenIsUnmatched(primary);
    WaitingIsOpen(secondary);
    OpenAndWaitingDisjoint(primary, secondary);
    DisjointAndEqual(PendingKeys(primary, false), WaitingKeys(secondary));
    SumsAgree(RowKeys(h.emitted), PendingKeys(primary, true), PendingKeys(primary, false), WaitingKeys(secondary));
  }

  // ----- the matcher

  class DualTradeMatcher {
    var primary: seq<Pending>
    var secondary: seq<Waiting>
    ghost var history: History

    /** Between calls something is open, or the primary queue has been let out. */
    ghost predicate Valid()
      reads this
    {
      Consistent(history, primary, secondary) && (secondary == [] && AllMatched(primary) ==> primary == [])
    }

    constructor ()
      ensures Valid() && history == History([], [], []) && primary == [] && secondary == []
    {
      primary, secondary, history := [], [], History([], [], []);
    }

    /** Where the first waiting row with this key is, if there is one. */
    method FindWaiting(key: Key) returns (at: int)
      ensures -1 <= at < |secondary|
      ensures at >= 0 ==> secondary[at].key == key
      ensures forall j :: 0 <= j < (if at < 0 then |secondary| else at) ==> secondary[j].key != key
    {
      for j := 0 to |secondary|
        invariant forall i :: 0 <= i < j ==> secondary[i].key != key
      {
        if secondary[j].key == key { return j; }
      }
      at := -1;
    }

    method FindUnmatched(key: Key) returns (at: int)
      ensures -1 <= at < |primary|
      ensures at >= 0 ==> !primary[at].matched && primary[at].row.key == key
      ensures forall j :: 0 <= j < (if at < 0 then |primary| else at) && !primary[j].matched ==>
                primary[j].row.key != key
    {
      for j := 0 to |primary|
        invariant forall i :: 0 <= i < j && !primary[i].matched ==> primary[i].row.key != key
      {
        if !primary[j].matched && primary[j].row.key == key { return j; }
      }
      at := -1;
    }

    /** A row from the first socket. It is kept with the time of its arrival, until all are let out;
        the oldest equal row that waits goes. */
    method Primary(row: Row, now: nat) returns (ready: seq<Row>)
      requires Valid()
      modifies this
      ensures Valid() && history.first == old(history.first) + [row] && history.second == old(history.second)
      ensures history.emitted == old(history.emitted) + ready
      ensures LetsOut(ready) && (old(InOrder(now)) ==> InOrder(now))
      ensures ready == [] ==> KeptFirst(old(primary), old(secondary), row, now, primary, secondary)
    {
      hide RowKeys, PendingKeys, WaitingKeys, RowsOf;
      hide Consistent, NoKeyBoth, AllMatched, LetsOut, KeptFirst;
      hide Ordered;
      var at := FindWaiting(row.key);
      FirstIsKept(primary, secondary, row, now, at);
      FirstKeeps(history, primary, secondary, row, now, at);
      FirstIsLast(primary, secondary, row, now, at);
      if at >= 0 { secondary := secondary[..at] + secondary[at + 1..]; }
      primary := primary + [Pending(row, now, at >= 0)];
      history := history.(first := history.first + [row]);
      ready := DrainMatched();
    }

    /** A row from the second socket, which is only compared: it marks the oldest equal row that has
        no partner, or waits from now on. */
    method Secondary(row: Row, now: nat) returns (ready: seq<Row>)
      requires Valid()
      modifies this
      ensures Valid() && history.second == old(history.second) + [row] && history.first == old(history.first)
      ensures history.emitted == old(history.emitted) + ready
      ensures LetsOut(ready) && (old(InOrder(now)) ==> InOrder(now))
      ensures ready == [] ==> KeptSecond(old(primary), old(secondary), row, now, primary, secondary)
    {
      hide RowKeys, PendingKeys, WaitingKeys, RowsOf, Consistent, NoKeyBoth, AllMatched, LetsOut, KeptSecond;
      var at := FindUnmatched(row.key);
      SecondIsKept(primary, secondary, row, now, at);
      SecondKeeps(history, primary, secondary, row, now, at);
      if at >= 0 {
        primary := primary[at := primary[at].(matched := true)];
      } else {
        secondary := secondary + [Waiting(row.key, now)];
      }
      history := history.(second := history.second + [row]);
      ready := DrainMatched();
    }

    /** The rows come out all together, and exactly when the sockets agree. */
    ghost predicate LetsOut(ready: seq<Row>)
      reads this
    {
      && history.emitted <= history.first
      && (primary == [] && secondary == [] <==> RowKeys(history.first) == RowKeys(history.second))
      && (RowKeys(history.first) == RowKeys(history.second) ==> history.emitted == history.first)
      && (ready != [] ==> history.emitted == history.first && RowKeys(history.first) == RowKeys(history.second))
    }

    /** Lets the matched front out, once nothing in either queue is open. */
    method DrainMatched() returns (ready: seq<Row>)
      requires Consistent(history, primary, secondary)
      modifies this
      ensures Valid() && history == old(history).(emitted := history.emitted)
      ensures history.emitted == old(history.emitted) + ready
      ensures LetsOut(ready)
      ensures secondary == old(secondary) && primary == if ready == [] then old(primary) else []
    {
      hide RowKeys, PendingKeys, WaitingKeys, RowsOf, Consistent;
      ready := [];
      AgreesWhenNothingOpen(history, primary, secondary);
      EmittedIsPrefix(history, primary, secondary);
      if secondary != [] || exists i :: 0 <= i < |primary| && !primary[i].matched { return; }
      ghost var start := history;
      while primary != [] && primary[0].matched
        invariant secondary == [] && AllMatched(primary)
        invariant history == start.(emitted := start.emitted + ready)
        invariant ready == [] ==> primary == old(primary)
        invariant Consistent(history, primary, secondary)
        decreases |primary|
      {
        LetFrontOut(history, primary);
        ready := ready + [primary[0].row];
        history := history.(emitted := history.emitted + [primary[0].row]);
        primary := primary[1..];
      }
      AgreesWhenNothingOpen(history, primary, secondary);
      EmittedIsPrefix(history, primary, secondary);
    }

    /** Too much is pending, or the oldest row of a queue has waited too long. */
    method Unhealthy(now: nat, matchTimeout: nat) returns (r: bool)
      requires InOrder(now)
      ensures r <==> |primary| + |secondary| > 1_024 || AnyOverdue(now, matchTimeout)
    {
      r := |primary| + |secondary| > DUAL_MATCH_MAX_PENDING
        || (primary != [] && Elapsed(now, primary[0].receivedAt) >= matchTimeout)
        || (secondary != [] && Elapsed(now, secondary[0].receivedAt) >= matchTimeout);
    }

    /** Rows were received in the order of time, and none later than now. */
    ghost predicate InOrder(now: nat)
      reads this
    {
      Ordered(primary, secondary, now)
    }

    /** Some row of some queue, not only the front, is overdue. */
    ghost predicate AnyOverdue(now: nat, matchTimeout: nat)
      reads this
    {
      || (exists i :: 0 <= i < |primary| && Elapsed(now, primary[i].receivedAt) >= matchTimeout)
      || (exists i :: 0 <= i < |secondary| && Elapsed(now, secondary[i].receivedAt) >= matchTimeout)
    }
  }

  ghost predicate Ordered(primary: seq<Pending>, secondary: seq<Waiting>, now: nat) {
    && (forall i, j :: 0 <= i < j < |primary| ==> primary[i].receivedAt <= primary[j].receivedAt)
    && (forall i, j :: 0 <= i < j < |secondary| ==> secondary[i].receivedAt <= secondary[j].receivedAt)
    && (forall i :: 0 <= i < |primary| ==> primary[i].receivedAt <= now)
    && (forall i :: 0 <= i < |secondary| ==> secondary[i].receivedAt <= now)
  }

  lemma FirstIsLast(primary: seq<Pending>, secondary: seq<Waiting>, row: Row, now: nat, at: int)
    requires -1 <= at < |secondary|
    ensures Ordered(primary, secondary, now) ==>
      Ordered(primary + [Pending(row, now, at >= 0)],
              if at >= 0 then secondary[..at] + secondary[at + 1..] else secondary, now)
    ensures Ordered(primary, secondary, now) ==>
      Ordered([], if at >= 0 then secondary[..at] + secondary[at + 1..] else secondary, now)
  {
  }

  /** What a row of the first socket leaves when nothing is let out. */
  ghost predicate KeptFirst(primary: seq<Pending>, secondary: seq<Waiting>, row: Row, now: nat,
                            primaryAfter: seq<Pending>, secondaryAfter: seq<Waiting>) {
    if forall j :: 0 <= j < |secondary| ==> secondary[j].key != row.key then
      primaryAfter == primary + [Pending(row, now, false)] && secondaryAfter == secondary
    else
      && primaryAfter == primary + [Pending(row, now, true)]
      && exists oldest :: 0 <= oldest < |secondary| && secondary[oldest].key == row.key
                          && (forall j :: 0 <= j < oldest ==> secondary[j].key != row.key)
                          && secondaryAfter == secondary[..oldest] + secondary[oldest + 1..]
  }

  /** What a row of the second socket leaves when nothing is let out. */
  ghost predicate KeptSecond(primary: seq<Pending>, secondary: seq<Waiting>, row: Row, now: nat,
                             primaryAfter: seq<Pending>, secondaryAfter: seq<Waiting>) {
    if forall j :: 0 <= j < |primary| ==> primary[j].matched || primary[j].row.key != row.key then
      primaryAfter == primary && secondaryAfter == secondary + [Waiting(row.key, now)]
    else
      && secondaryAfter == secondary
      && exists oldest :: 0 <= oldest < |primary| && !primary[oldest].matched && primary[oldest].row.key == row.key
                          && (forall j :: 0 <= j < oldest ==> primary[j].matched || primary[j].row.key != row.key)
                          && primaryAfter == primary[oldest := primary[oldest].(matched := true)]
  }

  lemma FirstIsKept(primary: seq<Pending>, secondary: seq<Waiting>, row: Row, now: nat, at: int)
    requires -1 <= at < |secondary| && (at >= 0 ==> secondary[at].key == row.key)
    requires forall j :: 0 <= j < (if at < 0 then |secondary| else at) ==> secondary[j].key != row.key
    ensures KeptFirst(primary, secondary, row, now, primary + [Pending(row, now, at >= 0)],
                      if at >= 0 then secondary[..at] + secondary[at + 1..] else secondary)
  {
  }

  lemma SecondIsKept(primary: seq<Pending>, secondary: seq<Waiting>, row: Row, now: nat, at: int)
    requires -1 <= at < |primary| && (at >= 0 ==> !primary[at].matched && primary[at].row.key == row.key)
    requires forall j :: 0 <= j < (if at < 0 then |primary| else at) && !primary[j].matched ==>
               primary[j].row.key != row.key
    ensures KeptSecond(primary, secondary, row, now,
                       if at >= 0 then primary[at := primary[at].(matched := true)] else primary,
                       if at >= 0 then secondary else secondary + [Waiting(row.key, now)])
  {
  }

  function Elapsed(now: nat, since: nat): nat { if now >= since then now - since else 0 }

  lemma EmittedIsPrefix(h: History, primary: seq<Pending>, secondary: seq<Waiting>)
    requires Consistent(h, primary, secondary)
    ensures h.emitted <= h.first && (primary == [] ==> h.emitted == h.first)
  {
  }

  lemma {:induction false} FrontOfQueue(primary: seq<Pending>)
    requires primary != []
    ensures RowsOf(primary) == [primary[0].row] + RowsOf(primary[1..])
    ensures PendingKeys(primary, true)
      == (if primary[0].matched then multiset{primary[0].row.key} else multiset{}) + PendingKeys(primary[1..], true)
  {
    var n := |primary| - 1;
    if n == 0 {
      assert primary[..0] == [] && primary[1..] == [];
    } else {
      assert primary[1..][..n - 1] == primary[..n][1..];
      FrontOfQueue(primary[..n]);
    }
  }

  lemma FirstKeeps(h: History, primary: seq<Pending>, secondary: seq<Waiting>, row: Row, now: nat, at: int)
    requires Consistent(h, primary, secondary) && -1 <= at < |secondary|
    requires at >= 0 ==> secondary[at].key == row.key
    requires at < 0 ==> forall j :: 0 <= j < |secondary| ==> secondary[j].key != row.key
    ensures Consistent(h.(first := h.first + [row]), primary + [Pending(row, now, at >= 0)],
                       if at >= 0 then secondary[..at] + secondary[at + 1..] else secondary)
  {
    hide RowKeys, PendingKeys, WaitingKeys, RowsOf;
    PendingAppend(primary, Pending(row, now, at >= 0), true);
    if at >= 0 { RemoveWaiting(secondary, at); }
  }

  lemma SecondKeeps(h: History, primary: seq<Pending>, secondary: seq<Waiting>, row: Row, now: nat, at: int)
    requires Consistent(h, primary, secondary) && -1 <= at < |primary|
    requires at >= 0 ==> !primary[at].matched && primary[at].row.key == row.key
    requires at < 0 ==> forall j :: 0 <= j < |primary| && !primary[j].matched ==> primary[j].row.key != row.key
    ensures Consistent(h.(second := h.second + [row]),
                       if at >= 0 then primary[at := primary[at].(matched := true)] else primary,
                       if at >= 0 then secondary else secondary + [Waiting(row.key, now)])
  {
    hide RowKeys, PendingKeys, WaitingKeys, RowsOf;
    RowKeysAppend(h.second, row);
    if at >= 0 { MarkMatched(primary, at); } else { WaitingAppend(secondary, Waiting(row.key, now)); }
  }

  lemma LetFrontOut(h: History, primary: seq<Pending>)
    requires Consistent(h, primary, []) && primary != [] && primary[0].matched
    ensures Consistent(h.(emitted := h.emitted + [primary[0].row]), primary[1..], [])
  {
    hide RowKeys, PendingKeys, RowsOf;
    FrontOfQueue(primary);
    RowKeysAppend(h.emitted, primary[0].row);
  }

  // ----- the rolling window of fill fingerprints

  /** The last fingerprints of a history, at most a window of them. */
  ghost function Window(accepted: seq<Key>): (r: seq<Key>)
    ensures |r| <= 3_000
  {
    if |accepted| <= 3_000 then accepted else accepted[|accepted| - 3_000..]
  }

  ghost predicate NoDuplicates(s: seq<Key>) { forall i, j :: 0 <= i < j < |s| ==> s[i] != s[j] }

  class RollingTradeDedup {
    var order: seq<Key>
    var fingerprints: set<Key>
    ghost var accepted: seq<Key>

    /** The set and the queue are the same window of what was accepted. */
    ghost predicate Valid()
      reads this
    {
      order == Window(accepted) && NoDuplicates(order) && forall f :: f in fingerprints <==> f in order
    }

    constructor ()
      ensures Valid() && accepted == []
    {
      order, fingerprints, accepted := [], {}, [];
    }

    /** Refuses a fingerprint exactly when it is among the last ones accepted. */
    method InsertIfNew(fingerprint: Key) returns (isNew: bool)
      requires Valid()
      modifies this
      ensures Valid() && isNew == (fingerprint !in Window(old(accepted)))
      ensures accepted == if isNew then old(accepted) + [fingerprint] else old(accepted)
    {
      if fingerprint in fingerprints { return false; }
      WindowSlides(accepted, fingerprint);
      OldestLeaves(order + [fingerprint]);
      fingerprints := fingerprints + {fingerprint};
      order := order + [fingerprint];
      if |order| > DEDUP_WINDOW_SIZE {
        fingerprints := fingerprints - {order[0]};
        order := order[1..];
      }
      accepted := accepted + [fingerprint];
      isNew := true;
    }
  }

  lemma OldestLeaves(grown: seq<Key>)
    requires grown != [] && NoDuplicates(grown)
    ensures forall f :: f in grown[1..] <==> f in grown && f != grown[0]
  {
    assert forall f :: f in grown <==> f == grown[0] || f in grown[1..];
  }

  lemma WindowSlides(accepted: seq<Key>, next: Key)
    ensures var grown := Window(accepted) + [next];
      Window(accepted + [next]) == if |grown| > 3_000 then grown[1..] else grown
  {
  }
}
