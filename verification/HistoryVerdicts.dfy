/** A history is told or refused for one reason, whatever the endpoint answers; and an endpoint that
    serves one chain is never refused. */
module HistoryVerdicts {
  import opened Words
  import opened HistoryPages

  // ----- one verdict

  /** Two readings of one direction take the same pages as far as both go. */
  lemma {:induction false} SamePages(a: seq<Page>, b: seq<Page>, direction: Direction, nextA: int, nextB: int,
                                     others: nat, r: Request, ask: Endpoint)
    requires Tiles(a, direction, r.from, nextA) && Answered(a, others, r, ask) && |a| <= |b|
    requires Tiles(b, direction, r.from, nextB) && Answered(b, others, r, ask)
    ensures a == b[..|a|] && (|a| < |b| ==> b[|a|].cursor == nextA) && (|a| == |b| ==> nextA == nextB)
  {
    hide Tiles, Answered;
    if a == [] {
      FirstCursor(b, direction, r.from, nextB);
      FirstCursor(a, direction, r.from, nextA);
    } else {
      var n := |a| - 1;
      TilesLess(a, direction, r.from, nextA);
      AnsweredLess(a, others, r, ask);
      SamePages(a[..n], b, direction, a[n].cursor, nextB, others, r, ask);
      SamePage(a, b, n, others, direction, r, ask, nextA, nextB);
    }
  }

  lemma FirstCursor(pages: seq<Page>, direction: Direction, from: int, next: int)
    requires Tiles(pages, direction, from, next)
    ensures if pages == [] then next == from else pages[0].cursor == from
  {
  }

  lemma AnsweredLess(pages: seq<Page>, others: nat, r: Request, ask: Endpoint)
    requires pages != [] && Answered(pages, others, r, ask)
    ensures Answered(pages[..|pages| - 1], others, r, ask)
  {
    hide IsAnswer;
  }

  /** After the same pages, the same request gives the same page, and so the same next request. */
  lemma SamePage(a: seq<Page>, b: seq<Page>, n: nat, others: nat, direction: Direction, r: Request, ask: Endpoint,
                 nextA: int, nextB: int)
    requires n + 1 == |a| <= |b| && a[..n] == b[..n] && b[n].cursor == a[n].cursor
    requires Tiles(a, direction, r.from, nextA) && Answered(a, others, r, ask)
    requires Tiles(b, direction, r.from, nextB) && Answered(b, others, r, ask)
    ensures a == b[..n + 1] && (n + 1 < |b| ==> b[n + 1].cursor == nextA) && (n + 1 == |b| ==> nextA == nextB)
  {
    hide UsablePage;
    assert IsAnswer(a[n], others + n + 1, r, ask) && IsAnswer(b[n], others + n + 1, r, ask);
    assert a[n].lines == b[n].lines && a[n] == b[n];
    assert a == a[..n] + [a[n]] && b[..n + 1] == b[..n] + [b[n]];
  }

  lemma TilesLess(pages: seq<Page>, direction: Direction, from: int, next: int)
    requires pages != [] && Tiles(pages, direction, from, next)
    ensures Tiles(pages[..|pages| - 1], direction, from, pages[|pages| - 1].cursor)
    ensures next == pages[|pages| - 1].last + 1 && pages[|pages| - 1].direction == direction
  {
  }

  /** Fewer of the pages agree when all of them do. */
  lemma FewerAgree(pages: seq<Page>, k: nat)
    requires k <= |pages| && Agrees(pages)
    ensures Agrees(pages[..k])
  {
    FirstPagesHold(pages, k);
  }

  lemma UsableIsNotRefused(lines: seq<Line>, r: Request, cursor: U64)
    requires UsablePage(lines, r, cursor)
    ensures lines != [] && !IsMalformed(lines, r) && !IsAstray(lines, r, cursor)
  {
    hide Rises;
    forall m | 0 <= m < |lines|
      ensures lines[m].BlockLine? && Rises(lines, m + 1, r)
    {
      FewerRise(lines, m, |lines|, r);
    }
  }

  lemma AnswerIsInRange(page: Page, n: nat, r: Request, ask: Endpoint)
    requires IsAnswer(page, n, r, ask)
    ensures r.from <= page.cursor <= page.last <= r.through
  {
  }

  /** A request whose answer belongs to a reading does not fail. */
  lemma AnswerDoesNotFail(e: Error, taken: seq<Page>, page: Page, more: seq<Page>, r: Request, ask: Endpoint)
    requires taken + [page] <= more && Agrees(more) && |more| <= r.maxRequests
    requires IsAnswer(page, |taken| + 1, r, ask)
    ensures !Fails(e, taken, page.direction, page.cursor, r, ask)
  {
    var k := |taken| + 1;
    assert more[..k] == taken + [page];
    FewerAgree(more, k);
    HeadersOfPagesMore(taken, page);
    LogsOfPagesMore(taken, page);
    UsableIsNotRefused(page.lines, r, page.cursor);
    hide UsablePage, HeadersClash, LogsClash, IsMalformed, IsAstray, HeadersOfPages, LogsOfPages, HeadersOf, LogsOf;
  }

  /** Where a direction stops, no other reading is longer. */
  lemma NoneIsLonger(e: Error, before: seq<Page>, taken: seq<Page>, cursor: U64, other: seq<Page>, next: int,
                     direction: Direction, r: Request, ask: Endpoint)
    requires r.from <= cursor <= r.through && Reads(taken, before, direction, cursor, r, ask)
    requires Fails(e, taken, direction, cursor, r, ask) && Reads(other, before, direction, next, r, ask)
    ensures |other| <= |taken|
  {
    hide Agrees, Fails, Tiles, Answered, IsAnswer;
    var a, b := taken[|before|..], other[|before|..];
    assert taken == before + a && other == before + b;
    if |b| > |a| {
      SamePages(a, b, direction, cursor, next, |before|, r, ask);
      AnsweredAt(b, |before|, |a|, direction, next, r, ask);
      AnswerDoesNotFail(e, taken, b[|a|], other, r, ask);
    }
  }

  /** Where a direction stops, no other reading goes on. */
  lemma StopIsLast(e: Error, before: seq<Page>, taken: seq<Page>, cursor: U64, other: seq<Page>, next: int,
                   direction: Direction, r: Request, ask: Endpoint)
    requires r.from <= cursor <= r.through && Reads(taken, before, direction, cursor, r, ask)
    requires Fails(e, taken, direction, cursor, r, ask) && Reads(other, before, direction, next, r, ask)
    ensures other <= taken && next <= r.through && (other == taken ==> next == cursor)
  {
    hide Agrees, Fails, Tiles, Answered, IsAnswer;
    var a, b := taken[|before|..], other[|before|..];
    assert taken == before + a && other == before + b;
    NoneIsLonger(e, before, taken, cursor, other, next, direction, r, ask);
    SamePages(b, a, direction, next, cursor, |before|, r, ask);
    if |b| < |a| { AnsweredAt(a, |before|, |b|, direction, cursor, r, ask); }
  }

  /** Every page of a reading is an answer to its own request. */
  lemma AnsweredAt(pages: seq<Page>, others: nat, p: nat, direction: Direction, next: int, r: Request, ask: Endpoint)
    requires p < |pages| && Answered(pages, others, r, ask) && Tiles(pages, direction, r.from, next)
    ensures IsAnswer(pages[p], others + p + 1, r, ask) && pages[p].direction == direction
    ensures r.from <= pages[p].cursor <= r.through
  {
    hide IsAnswer;
    AnswerIsInRange(pages[p], others + p + 1, r, ask);
  }

  /** A direction stops at one place for one reason. */
  lemma StopsOnce(d: Error, e: Error, before: seq<Page>, a: seq<Page>, b: seq<Page>, direction: Direction, r: Request,
                  ask: Endpoint)
    requires Stops(d, before, a, direction, r, ask) && Stops(e, before, b, direction, r, ask)
    ensures d == e
  {
    hide Reads, Fails;
    var x: U64 :| r.from <= x <= r.through && Reads(a, before, direction, x, r, ask)
                  && Fails(d, a, direction, x, r, ask);
    var y: U64 :| r.from <= y <= r.through && Reads(b, before, direction, y, r, ask)
                  && Fails(e, b, direction, y, r, ask);
    StopIsLast(d, before, a, x, b, y, direction, r, ask);
    StopIsLast(e, before, b, y, a, x, direction, r, ask);
    assert a == b;
    FailsOnce(d, e, a, direction, x, r, ask);
  }

  lemma FailsOnce(d: Error, e: Error, taken: seq<Page>, direction: Direction, cursor: U64, r: Request, ask: Endpoint)
    requires Fails(d, taken, direction, cursor, r, ask) && Fails(e, taken, direction, cursor, r, ask)
    ensures d == e
  {
    hide UsablePage, HeadersClash, LogsClash, IsMalformed, IsAstray;
    var reply := ask(direction, cursor, |taken| + 1);
    if reply.Lines? {
      if UsablePage(reply.lines, r, cursor) { UsableIsNotRefused(reply.lines, r, cursor); }
      MalformedIsNotAstray(reply.lines, r, cursor);
    }
  }

  lemma MalformedIsNotAstray(lines: seq<Line>, r: Request, cursor: U64)
    ensures !(IsMalformed(lines, r) && IsAstray(lines, r, cursor))
    ensures lines == [] ==> !IsMalformed(lines, r) && !IsAstray(lines, r, cursor)
  {
    if IsMalformed(lines, r) {
      var n :| 0 <= n < |lines| && Rises(lines, n, r) && lines[n].BadLine?;
      RefusedHere(lines, n, r, cursor);
    }
  }

  /** A direction that is read to its end does not stop. */
  lemma ReadDoesNotStop(e: Error, before: seq<Page>, taken: seq<Page>, pages: seq<Page>, direction: Direction,
                        r: Request, ask: Endpoint)
    requires Stops(e, before, taken, direction, r, ask)
    ensures !Reads(pages, before, direction, r.through + 1, r, ask)
  {
    hide Reads, Fails;
    var x: U64 :| r.from <= x <= r.through && Reads(taken, before, direction, x, r, ask)
                  && Fails(e, taken, direction, x, r, ask);
    if Reads(pages, before, direction, r.through + 1, r, ask) {
      StopIsLast(e, before, taken, x, pages, r.through + 1, direction, r, ask);
    }
  }

  /** A direction is read to its end in one way. */
  lemma ReadsOnce(a: seq<Page>, b: seq<Page>, before: seq<Page>, direction: Direction, r: Request, ask: Endpoint)
    requires Reads(a, before, direction, r.through + 1, r, ask) && Reads(b, before, direction, r.through + 1, r, ask)
    ensures a == b
  {
    if |a| <= |b| { NoFurther(a, b, before, direction, r, ask); } else { NoFurther(b, a, before, direction, r, ask); }
  }

  lemma NoFurther(a: seq<Page>, b: seq<Page>, before: seq<Page>, direction: Direction, r: Request, ask: Endpoint)
    requires Reads(a, before, direction, r.through + 1, r, ask) && Reads(b, before, direction, r.through + 1, r, ask)
    requires |a| <= |b|
    ensures a == b
  {
    hide IsAnswer, Agrees;
    var x, y := a[|before|..], b[|before|..];
    assert a == before + x && b == before + y;
    SamePages(x, y, direction, r.through + 1, r.through + 1, |before|, r, ask);
    if |x| < |y| { AnswerIsInRange(y[|x|], |before| + |x| + 1, r, ask); }
  }

  /** Nothing is both told and refused, and a refusal has one reason. */
  lemma OneVerdict(d: Error, e: Error, r: Request, ask: Endpoint)
    requires Refuses(d, r, ask)
    ensures !Tells(r, ask) && (Refuses(e, r, ask) ==> d == e)
  {
    hide Reads, Stops, IsAnchored, IsValid;
    forall first, pages | IsRead(first, pages, r, ask)
      ensures d == AnchorMismatch && !IsAnchored(pages, r)
    {
      ReadIsNotRefused(d, first, pages, r, ask);
    }
    if Refuses(e, r, ask) {
      forall first, pages | IsRead(first, pages, r, ask)
        ensures e == AnchorMismatch
      {
        ReadIsNotRefused(e, first, pages, r, ask);
      }
      if (StopsFirst(d, r, ask) || StopsThen(d, r, ask)) && (StopsFirst(e, r, ask) || StopsThen(e, r, ask)) {
        StoppedOnce(d, e, r, ask);
      }
    }
  }

  /** The one reason of a refusal. */
  lemma OneReason(e: Error, r: Request, ask: Endpoint)
    requires Refuses(e, r, ask)
    ensures !Tells(r, ask) && forall d: Error :: Refuses(d, r, ask) <==> d == e
  {
    hide Refuses, Tells;
    forall d: Error | Refuses(d, r, ask)
      ensures d == e
    {
      OneVerdict(e, d, r, ask);
    }
    OneVerdict(e, e, r, ask);
  }

  /** What the reading found is the reason. */
  lemma StoppedBy(e: Error, first: seq<Page>, taken: seq<Page>, r: Request, ask: Endpoint)
    requires IsValid(r) && 2 <= r.maxRequests
    requires if first == [] then Stops(e, [], taken, From, r, ask)
             else Reads(first, [], From, r.through + 1, r, ask) && Stops(e, first, taken, To, r, ask)
    ensures !Tells(r, ask) && forall d: Error :: Refuses(d, r, ask) <==> d == e
  {
    StopIsRefusal(e, first, taken, r, ask);
    hide Refuses, Tells, Reads, Stops;
    OneReason(e, r, ask);
  }

  lemma StopIsRefusal(e: Error, first: seq<Page>, taken: seq<Page>, r: Request, ask: Endpoint)
    requires IsValid(r) && 2 <= r.maxRequests
    requires if first == [] then Stops(e, [], taken, From, r, ask)
             else Reads(first, [], From, r.through + 1, r, ask) && Stops(e, first, taken, To, r, ask)
    ensures Refuses(e, r, ask)
  {
    StopsAtRequest(e, first, taken, if first == [] then From else To, r, ask);
    StopIsSomewhere(e, first, taken, r, ask);
    hide StopsFirst, StopsThen, Reads, Stops, IsAnchored, IsRead, IsValid;
  }

  lemma StopIsSomewhere(e: Error, first: seq<Page>, taken: seq<Page>, r: Request, ask: Endpoint)
    requires if first == [] then Stops(e, [], taken, From, r, ask)
             else Reads(first, [], From, r.through + 1, r, ask) && Stops(e, first, taken, To, r, ask)
    ensures StopsFirst(e, r, ask) || StopsThen(e, r, ask)
  {
    hide Reads, Stops;
  }

  lemma StopsAtRequest(e: Error, before: seq<Page>, taken: seq<Page>, direction: Direction, r: Request, ask: Endpoint)
    requires Stops(e, before, taken, direction, r, ask)
    ensures e != InvalidInput && e != AnchorMismatch
  {
    hide Reads, UsablePage, IsMalformed, IsAstray, HeadersClash, LogsClash;
  }

  lemma InputRefused(r: Request, ask: Endpoint)
    requires !IsValid(r) || r.maxRequests < 2
    ensures !Tells(r, ask)
    ensures forall d: Error ::
              Refuses(d, r, ask) <==> d == if IsValid(r) then RequestBudgetExceeded else InvalidInput
  {
    var e := if IsValid(r) then RequestBudgetExceeded else InvalidInput;
    assert Refuses(e, r, ask) by { hide Reads, Stops, IsAnchored; }
    OneReason(e, r, ask);
  }

  lemma AnchorRefused(first: seq<Page>, pages: seq<Page>, r: Request, ask: Endpoint)
    requires IsRead(first, pages, r, ask) && !IsAnchored(pages, r)
    ensures !Tells(r, ask) && forall d: Error :: Refuses(d, r, ask) <==> d == AnchorMismatch
  {
    assert Refuses(AnchorMismatch, r, ask) by { hide IsRead, IsAnchored; }
    OneReason(AnchorMismatch, r, ask);
  }

  lemma ToldBy(first: seq<Page>, pages: seq<Page>, r: Request, ask: Endpoint)
    requires IsRead(first, pages, r, ask) && IsAnchored(pages, r)
    ensures Tells(r, ask) && forall d: Error :: !Refuses(d, r, ask)
  {
    hide IsRead, IsAnchored, Refuses;
    forall d: Error | Refuses(d, r, ask)
      ensures !Tells(r, ask)
    {
      OneVerdict(d, d, r, ask);
    }
  }

  lemma ReadIsNotRefused(d: Error, first: seq<Page>, pages: seq<Page>, r: Request, ask: Endpoint)
    requires Refuses(d, r, ask) && IsRead(first, pages, r, ask)
    ensures d == AnchorMismatch && !IsAnchored(pages, r)
  {
    hide Reads, Stops, IsAnchored, IsValid;
    if d == AnchorMismatch {
      var f, p :| IsRead(f, p, r, ask) && !IsAnchored(p, r);
      ReadsOnce(f, first, [], From, r, ask);
      ReadsOnce(p, pages, first, To, r, ask);
    } else if StopsFirst(d, r, ask) {
      var taken :| Stops(d, [], taken, From, r, ask);
      ReadDoesNotStop(d, [], taken, first, From, r, ask);
    } else if StopsThen(d, r, ask) {
      var f, taken :| Reads(f, [], From, r.through + 1, r, ask) && Stops(d, f, taken, To, r, ask);
      ReadsOnce(f, first, [], From, r, ask);
      ReadDoesNotStop(d, first, taken, pages, To, r, ask);
    }
  }

  lemma StoppedOnce(d: Error, e: Error, r: Request, ask: Endpoint)
    requires StopsFirst(d, r, ask) || StopsThen(d, r, ask)
    requires StopsFirst(e, r, ask) || StopsThen(e, r, ask)
    ensures d == e
  {
    hide Reads, Stops;
    if StopsFirst(d, r, ask) {
      StopsFirstOnly(d, e, r, ask);
    } else if StopsFirst(e, r, ask) {
      StopsFirstOnly(e, d, r, ask);
    } else {
      var f, a :| Reads(f, [], From, r.through + 1, r, ask) && Stops(d, f, a, To, r, ask);
      var g, b :| Reads(g, [], From, r.through + 1, r, ask) && Stops(e, g, b, To, r, ask);
      ReadsOnce(f, g, [], From, r, ask);
      StopsOnce(d, e, f, a, b, To, r, ask);
    }
  }

  lemma StopsFirstOnly(d: Error, e: Error, r: Request, ask: Endpoint)
    requires StopsFirst(d, r, ask) && (StopsFirst(e, r, ask) || StopsThen(e, r, ask))
    ensures d == e
  {
    hide Reads, Stops;
    var a :| Stops(d, [], a, From, r, ask);
    if StopsThen(e, r, ask) {
      var g, b :| Reads(g, [], From, r.through + 1, r, ask) && Stops(e, g, b, To, r, ask);
      ReadDoesNotStop(d, [], a, g, From, r, ask);
    } else {
      var b :| Stops(e, [], b, From, r, ask);
      StopsOnce(d, e, [], a, b, From, r, ask);
    }
  }

  // ----- an honest endpoint

  /** One chain of blocks over the range: numbered, linked, with a hash of its own for each block,
      ending in the expected one, and in each block one log at an index. */
  ghost predicate IsChain(chain: U64 -> Header, content: U64 -> set<Entry>, r: Request) {
    && (forall n: U64 :: r.from <= n <= r.through ==> chain(n).number == n)
    && (forall n: U64, m: U64 :: r.from <= n < m <= r.through ==> chain(n).hash != chain(m).hash)
    && (forall n: U64, m: U64 :: r.from <= n < m <= r.through && m == n + 1 ==> chain(m).parentHash == chain(n).hash)
    && (forall n: U64, a, b ::
          r.from <= n <= r.through && a in content(n) && b in content(n) && a.logIndex == b.logIndex ==> a == b)
    && chain(r.through).hash == r.expectedHash
  }

  /** The lines are blocks of the chain, with some of their logs. */
  ghost predicate IsOfChain(lines: seq<Line>, chain: U64 -> Header, content: U64 -> set<Entry>) {
    forall i :: 0 <= i < |lines| && lines[i].BlockLine? ==>
      lines[i].header == chain(lines[i].header.number)
      && forall e :: e in lines[i].entries ==> e in content(lines[i].header.number)
  }

  ghost predicate HeadersAreOf(headers: set<Header>, chain: U64 -> Header, r: Request) {
    forall h :: h in headers ==> r.from <= h.number <= r.through && h == chain(h.number)
  }

  ghost predicate LogsAreOf(logs: set<TransferLog>, chain: U64 -> Header, content: U64 -> set<Entry>, r: Request) {
    forall l :: l in logs ==>
      && r.from <= l.blockNumber <= r.through && l.blockHash == chain(l.blockNumber).hash
      && l.entry in content(l.blockNumber)
  }

  lemma {:induction false} LinesAreOfChain(lines: seq<Line>, chain: U64 -> Header, content: U64 -> set<Entry>,
                                           r: Request)
    requires Rises(lines, |lines|, r) && IsOfChain(lines, chain, content)
    ensures HeadersAreOf(HeadersOf(lines), chain, r) && LogsAreOf(LogsOf(lines), chain, content, r)
  {
    if lines != [] {
      var n := |lines| - 1;
      FewerLines(lines, chain, content, r);
      LinesAreOfChain(lines[..n], chain, content, r);
    }
  }

  lemma FewerLines(lines: seq<Line>, chain: U64 -> Header, content: U64 -> set<Entry>, r: Request)
    requires lines != [] && Rises(lines, |lines|, r) && IsOfChain(lines, chain, content)
    ensures Rises(lines[..|lines| - 1], |lines| - 1, r) && IsOfChain(lines[..|lines| - 1], chain, content)
  {
  }

  lemma {:induction false} PagesAreOfChain(pages: seq<Page>, chain: U64 -> Header, content: U64 -> set<Entry>,
                                           r: Request, ask: Endpoint)
    requires Answered(pages, 0, r, ask) && forall p :: 0 <= p < |pages| ==> IsOfChain(pages[p].lines, chain, content)
    ensures HeadersAreOf(HeadersOfPages(pages), chain, r) && LogsAreOf(LogsOfPages(pages), chain, content, r)
  {
    hide Rises, IsOfChain, HeadersOf, LogsOf;
    if pages != [] {
      var n := |pages| - 1;
      assert IsAnswer(pages[n], 0 + n + 1, r, ask);
      AnsweredLess(pages, 0, r, ask);
      PagesAreOfChain(pages[..n], chain, content, r, ask);
      LinesAreOfChain(pages[n].lines, chain, content, r);
    }
  }

  lemma ChainAgrees(headers: set<Header>, logs: set<TransferLog>, chain: U64 -> Header, content: U64 -> set<Entry>,
                    r: Request)
    requires IsChain(chain, content, r) && HeadersAreOf(headers, chain, r) && LogsAreOf(logs, chain, content, r)
    ensures !HeadersClash(headers) && !LogsClash(logs)
  {
  }

  /** An endpoint that serves one chain, in pages that cover the range in both directions within the
      budget, tells a history. */
  lemma ChainIsTold(first: seq<Page>, pages: seq<Page>, chain: U64 -> Header, content: U64 -> set<Entry>, r: Request,
                    ask: Endpoint)
    requires IsValid(r) && IsChain(chain, content, r) && |pages| <= r.maxRequests
    requires first <= pages && Answered(pages, 0, r, ask)
    requires Tiles(first, From, r.from, r.through + 1) && Tiles(pages[|first|..], To, r.from, r.through + 1)
    requires forall p :: 0 <= p < |pages| ==> IsOfChain(pages[p].lines, chain, content)
    ensures Tells(r, ask)
  {
    TilesSome(first, From, r);
    TilesSome(pages[|first|..], To, r);
    ChainIsAnchored(first, pages, chain, content, r, ask);
    PagesAreOfChain(pages, chain, content, r, ask);
    hide *;
    ChainAgrees(HeadersOfPages(pages), LogsOfPages(pages), chain, content, r);
    PagesAgreeIf(pages);
    ReadInTwo(first, pages, r, ask);
    ToldBy(first, pages, r, ask);
  }

  lemma PagesAgreeIf(pages: seq<Page>)
    requires !HeadersClash(HeadersOfPages(pages)) && !LogsClash(LogsOfPages(pages))
    ensures Agrees(pages)
  {
  }

  lemma ChainIsAnchored(first: seq<Page>, pages: seq<Page>, chain: U64 -> Header, content: U64 -> set<Entry>,
                        r: Request, ask: Endpoint)
    requires IsChain(chain, content, r) && first < pages && Answered(pages, 0, r, ask)
    requires Tiles(pages[|first|..], To, r.from, r.through + 1)
    requires forall p :: 0 <= p < |pages| ==> IsOfChain(pages[p].lines, chain, content)
    ensures IsAnchored(pages, r)
  {
    var rest, n := pages[|first|..], |pages| - 1;
    assert rest[|rest| - 1] == pages[n];
    hide IsChain, IsOfChain, Answered, IsAnchored;
    TilesLess(rest, To, r.from, r.through + 1);
    EndIsAnchor(pages, chain, content, r, ask);
  }

  lemma ReadInTwo(first: seq<Page>, pages: seq<Page>, r: Request, ask: Endpoint)
    requires IsValid(r) && [] < first < pages && |pages| <= r.maxRequests
    requires Answered(pages, 0, r, ask) && Agrees(pages)
    requires Tiles(first, From, r.from, r.through + 1) && Tiles(pages[|first|..], To, r.from, r.through + 1)
    ensures IsRead(first, pages, r, ask)
  {
    BothAreRead(first, pages, r, ask);
    assert |first| >= 1 && |pages| >= 2;
    hide Answered, Agrees, Tiles, Reads;
  }

  lemma BothAreRead(first: seq<Page>, pages: seq<Page>, r: Request, ask: Endpoint)
    requires first <= pages && |pages| <= r.maxRequests && Answered(pages, 0, r, ask) && Agrees(pages)
    requires Tiles(first, From, r.from, r.through + 1) && Tiles(pages[|first|..], To, r.from, r.through + 1)
    ensures Reads(first, [], From, r.through + 1, r, ask) && Reads(pages, first, To, r.through + 1, r, ask)
  {
    AnsweredTwice(first, pages, r, ask);
    FewerAgree(pages, |first|);
    hide *;
    assert pages[..|first|] == first && first[0..] == first;
    ReadsThus([], first, From, r.through + 1, r, ask);
    ReadsThus(first, pages, To, r.through + 1, r, ask);
  }

  lemma TilesSome(pages: seq<Page>, direction: Direction, r: Request)
    requires r.from <= r.through && Tiles(pages, direction, r.from, r.through + 1)
    ensures pages != []
  {
  }

  lemma AnsweredTwice(first: seq<Page>, pages: seq<Page>, r: Request, ask: Endpoint)
    requires first <= pages && Answered(pages, 0, r, ask)
    ensures Answered(first, 0, r, ask) && Answered(pages[|first|..], |first|, r, ask)
  {
    hide IsAnswer;
    forall p | 0 <= p < |pages| - |first|
      ensures IsAnswer(pages[|first|..][p], |first| + p + 1, r, ask)
    {
      assert IsAnswer(pages[|first| + p], 0 + (|first| + p) + 1, r, ask);
    }
  }

  lemma EndIsAnchor(pages: seq<Page>, chain: U64 -> Header, content: U64 -> set<Entry>, r: Request, ask: Endpoint)
    requires IsChain(chain, content, r) && Answered(pages, 0, r, ask) && pages != []
    requires pages[|pages| - 1].last == r.through && IsOfChain(pages[|pages| - 1].lines, chain, content)
    ensures IsAnchored(pages, r)
  {
    var last := pages[|pages| - 1];
    assert IsAnswer(last, 0 + (|pages| - 1) + 1, r, ask);
    UsableEnds(last.lines, r, last.cursor);
    hide UsablePage, Answered;
    assert last.lines[|last.lines| - 1].header in HeadersOf(last.lines);
  }
}
