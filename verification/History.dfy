/** Acquires the transfer history of a holder in pages, once by sender and once by recipient, and
    merges both into one ordered list under one chain of headers. */
module History {
  import opened Words
  import opened HistoryPages
  import opened HistoryVerdicts

  class ReadState {
    var requestCount: nat
    var pages: seq<Page>
    var logs: map<LogKey, TransferLog>
    var headers: map<U64, Header>

    ghost predicate Valid()
      reads this
    {
      Linked(headers) && Placed(logs, headers) && requestCount == |pages|
      && Holds(logs, LogsOfPages(pages)) && AllRegistered(pages, headers)
      && headers.Values <= HeadersOfPages(pages)
    }

    constructor ()
      ensures Valid() && pages == [] && requestCount == 0 && logs == map[] && headers == map[]
    {
      requestCount, pages, logs, headers := 0, [], map[], map[];
    }

    /** Registers a header, whatever order headers arrive in. */
    method RegisterHeader(header: Header) returns (ok: bool)
      requires Linked(headers)
      modifies this`headers
      ensures ok <==> Fits(header, old(headers))
      ensures headers == if ok then old(headers)[header.number := header] else old(headers)
      ensures Linked(headers)
    {
      if header.number in headers && headers[header.number] != header { return false; }
      if header.number > 0 && header.number - 1 in headers
         && header.parentHash != headers[header.number - 1].hash { return false; }
      if header.number + 1 < TWO_64 && header.number + 1 in headers
         && headers[header.number + 1].parentHash != header.hash { return false; }
      headers := headers[header.number := header];
      ok := true;
    }

    /** A header fits when it repeats what is known and links to both known neighbours. */
    static ghost predicate Fits(header: Header, known: map<U64, Header>) {
      && (header.number in known ==> known[header.number] == header)
      && (forall n :: n in known && n + 1 == header.number ==> header.parentHash == known[n].hash)
      && (forall n :: n in known && n == header.number + 1 ==> known[n].parentHash == header.hash)
    }

    /** Keeps a log under its locator; a second log may only repeat the first. */
    method AddLog(log: TransferLog) returns (ok: bool)
      requires Placed(logs, headers) && log.blockNumber in headers && headers[log.blockNumber].hash == log.blockHash
      modifies this`logs
      ensures ok <==> (KeyOf(log) in old(logs) ==> old(logs)[KeyOf(log)] == log)
      ensures logs == if ok then old(logs)[KeyOf(log) := log] else old(logs)
      ensures Placed(logs, headers)
    {
      if KeyOf(log) in logs {
        ok := logs[KeyOf(log)] == log;
        assert ok ==> logs == logs[KeyOf(log) := log];
      } else {
        logs := logs[KeyOf(log) := log];
        ok := true;
      }
    }

    /** Registers the headers of a page, one after the other. */
    method RegisterPage(lines: seq<Line>, ghost known: set<Header>) returns (ok: bool)
      requires Linked(headers) && headers.Values <= known && forall i :: 0 <= i < |lines| ==> lines[i].BlockLine?
      modifies this`headers
      ensures Linked(headers) && Extends(old(headers), headers) && headers.Values <= known + HeadersOf(lines)
      ensures ok ==> Registered(lines, headers)
      ensures !ok ==> HeadersClash(known + HeadersOf(lines))
    {
      for n := 0 to |lines|
        invariant Linked(headers) && Extends(old(headers), headers) && Registered(lines[..n], headers)
        invariant headers.Values <= known + HeadersOf(lines)
      {
        ghost var before := headers;
        ok := RegisterHeader(lines[n].header);
        assert lines[n].header in HeadersOf(lines);
        if !ok {
          MisfitClashes(lines[n].header, before, known + HeadersOf(lines));
          return;
        }
        assert Extends(before, headers);
        assert lines[..n + 1] == lines[..n] + [lines[n]];
      }
      assert lines[..|lines|] == lines;
      ok := true;
    }

    /** Keeps the logs of one block. */
    method AddBlock(line: Line, ghost kept: set<TransferLog>) returns (ok: bool)
      requires line.BlockLine? && Placed(logs, headers) && Holds(logs, kept)
      requires line.header.number in headers && headers[line.header.number] == line.header
      modifies this`logs
      ensures Placed(logs, headers) && (ok ==> Holds(logs, kept + LogsOfLine(line)))
      ensures !ok ==> LogsClash(kept + LogsOfLine(line))
    {
      hide Placed, Holds;
      ghost var added: set<TransferLog> := {};
      assert kept + added == kept;
      for n := 0 to |line.entries|
        invariant Placed(logs, headers) && Holds(logs, kept + added)
        invariant added == set i | 0 <= i < n :: LogOf(line.header, line.entries[i])
      {
        var log := LogOf(line.header, line.entries[n]);
        HoldsMore(logs, kept + added, log);
        ghost var before := logs;
        ok := AddLog(log);
        if !ok {
          DisplacedClashes(before, kept + added, log, kept + LogsOfLine(line));
          return;
        }
        assert kept + (added + {log}) == (kept + added) + {log};
        added := added + {log};
      }
      assert added == LogsOfLine(line);
      ok := true;
    }

    method AddLogs(lines: seq<Line>, ghost kept: set<TransferLog>) returns (ok: bool)
      requires Placed(logs, headers) && Holds(logs, kept) && Registered(lines, headers)
      requires forall i :: 0 <= i < |lines| ==> lines[i].BlockLine?
      modifies this`logs
      ensures Placed(logs, headers) && (ok ==> Holds(logs, kept + LogsOf(lines)))
      ensures !ok ==> LogsClash(kept + LogsOf(lines))
    {
      hide Placed, Holds, LogsClash;
      assert kept + {} == kept && lines[..0] == [];
      for n := 0 to |lines|
        invariant Placed(logs, headers) && Holds(logs, kept + LogsOf(lines[..n]))
      {
        assert lines[..n + 1] == lines[..n] + [lines[n]];
        LogsOfMore(lines[..n], lines[n]);
        assert kept + (LogsOf(lines[..n]) + LogsOfLine(lines[n])) == kept + LogsOf(lines[..n]) + LogsOfLine(lines[n]);
        ok := AddBlock(lines[n], kept + LogsOf(lines[..n]));
        if !ok {
          ClashStays(lines, n + 1, kept);
          return;
        }
      }
      assert lines[..|lines|] == lines;
      ok := true;
    }

    /** Takes in one page: its headers, then its logs, then the page itself. */
    method TakePage(direction: Direction, r: Request, cursor: U64, lines: seq<Line>) returns (error: Option<Error>)
      requires requestCount == |pages| + 1 && UsablePage(lines, r, cursor)
      requires Linked(headers) && Placed(logs, headers)
      requires Holds(logs, LogsOfPages(pages)) && AllRegistered(pages, headers)
      requires headers.Values <= HeadersOfPages(pages)
      modifies this
      ensures error in {None, Some(ConflictingHeader), Some(ConflictingLocator)}
      ensures error == Some(ConflictingHeader) ==> HeadersClash(HeadersOfPages(old(pages)) + HeadersOf(lines))
      ensures error == Some(ConflictingLocator) ==>
        && !HeadersClash(HeadersOfPages(old(pages)) + HeadersOf(lines))
        && LogsClash(LogsOfPages(old(pages)) + LogsOf(lines))
      ensures error.Some? ==> pages == old(pages)
      ensures error.None? ==> Valid() && requestCount == old(requestCount)
      ensures error.None? ==> pages == old(pages) + [Page(direction, cursor, lines[|lines| - 1].header.number, lines)]
      ensures error.None? ==> Extends(old(headers), headers) && Registered(lines, headers)
    {
      hide Holds, LogsOf, HeadersOf, HeadersOfPages, HeadersClash, LogsClash;
      var linked := RegisterPage(lines, HeadersOfPages(pages));
      if !linked { return Some(ConflictingHeader); }
      PlacedStays(logs, old(headers), headers);
      RegisteredStays(pages, old(headers), headers);
      var kept := AddLogs(lines, LogsOfPages(pages));
      if !kept {
        AllKnownAgree(pages, lines, headers);
        return Some(ConflictingLocator);
      }
      var page := Page(direction, cursor, lines[|lines| - 1].header.number, lines);
      LogsOfPagesMore(pages, page);
      HeadersOfPagesMore(pages, page);
      pages := pages + [page];
      error := None;
    }

    /** What is taken in agrees with itself. */
    lemma PagesAgree()
      requires Valid()
      ensures Agrees(pages)
    {
      AllKnownAgree(pages, [], headers);
      assert HeadersOfPages(pages) + HeadersOf([]) == HeadersOfPages(pages);
    }

    /** Makes one request and takes in its page; the result is the page's last header. */
    method ReadPage(r: Request, direction: Direction, cursor: U64, ask: Endpoint) returns (result: Result<Header>)
      requires Valid()
      modifies this
      ensures result.Ok? ==> Valid() && Extends(old(headers), headers) && |pages| <= r.maxRequests
      ensures result.Ok? ==> |pages| == |old(pages)| + 1 && pages == old(pages) + [pages[|old(pages)|]]
      ensures result.Ok? ==> IsPageOf(pages[|old(pages)|], direction, cursor, result.value.number, |pages|, r, ask)
      ensures result.Ok? ==> result.value.number in headers && headers[result.value.number] == result.value
      ensures result.Err? ==> pages == old(pages) && Fails(result.error, pages, direction, cursor, r, ask)
    {
      hide Holds, LogsOfPages, Linked, Placed, AllRegistered, HeadersOfPages, UsablePage, IsMalformed, IsAstray;
      hide HeadersClash, LogsClash, Extends, HeadersOf, LogsOf;
      if requestCount >= r.maxRequests { return Err(RequestBudgetExceeded); }
      requestCount := requestCount + 1;
      var reply := ask(direction, cursor, requestCount);
      if reply.NoReply? { return Err(RequestFailed); }
      var refused := ParsePage(reply.lines, r, cursor);
      if refused.Some? { return Err(refused.value); }
      UsableEnds(reply.lines, r, cursor);
      var error := TakePage(direction, r, cursor, reply.lines);
      if error.Some? { return Err(error.value); }
      result := Ok(reply.lines[|reply.lines| - 1].header);
    }

    /** Pages through one direction to the last block of the range, or stops for a reason. */
    method ReadDirection(r: Request, direction: Direction, ask: Endpoint) returns (result: Result<Header>)
      requires Valid() && r.from <= r.through && |pages| <= r.maxRequests
      modifies this
      ensures result.Ok? ==> Valid() && Extends(old(headers), headers)
      ensures result.Ok? ==> Reads(pages, old(pages), direction, r.through + 1, r, ask)
      ensures result.Ok? ==> result.value.number == r.through && r.through in headers
                             && headers[r.through] == result.value
      ensures result.Err? ==> Stops(result.error, old(pages), pages, direction, r, ask)
    {
      hide Tiles, Answered, IsPageOf, Fails, Reads, Stops, Extends, Agrees, ReadState.Valid;
      var cursor := r.from;
      ghost var start, more := pages, [];
      NothingAsked(direction, r, |pages|, ask);
      ExtendsSelf(headers);
      while true
        invariant Valid() && pages == start + more && |pages| <= r.maxRequests
        invariant Tiles(more, direction, r.from, cursor) && r.from <= cursor <= r.through
        invariant Answered(more, |start|, r, ask)
        invariant Extends(old(headers), headers)
        decreases r.through - cursor
      {
        assert pages[|start|..] == more;
        PagesAgree();
        ghost var before := headers;
        result := ReadPage(r, direction, cursor, ask);
        if result.Err? {
          StopsBy(result.error, start, pages, direction, cursor, r, ask);
          return;
        }
        ExtendsFurther(old(headers), before, headers);
        ghost var page := pages[|start| + |more|];
        PageIsNext(more, page, direction, cursor, result.value.number, |start|, r, ask);
        more := more + [page];
        assert pages == start + more;
        if result.value.number == r.through {
          assert pages[|start|..] == more;
          PagesAgree();
          ReadsThus(start, pages, direction, r.through + 1, r, ask);
          return;
        }
        cursor := result.value.number + 1;
      }
    }
  }

  /** Known headers of pages and lines do not clash. */
  lemma AllKnownAgree(pages: seq<Page>, lines: seq<Line>, headers: map<U64, Header>)
    requires Linked(headers) && AllRegistered(pages, headers) && Registered(lines, headers)
    ensures !HeadersClash(HeadersOfPages(pages) + HeadersOf(lines))
  {
    PagesAreKnown(pages, headers);
    hide AllRegistered, HeadersOfPages;
    forall h | h in HeadersOfPages(pages) + HeadersOf(lines)
      ensures h.number in headers && headers[h.number] == h
    {
    }
  }

  lemma {:induction false} PagesAreKnown(pages: seq<Page>, headers: map<U64, Header>)
    requires AllRegistered(pages, headers)
    ensures forall h :: h in HeadersOfPages(pages) ==> h.number in headers && headers[h.number] == h
  {
    if pages != [] {
      var last := pages[|pages| - 1];
      assert last in pages && Registered(last.lines, headers);
      PagesAreKnown(pages[..|pages| - 1], headers);
    }
  }

  lemma MisfitClashes(header: Header, known: map<U64, Header>, all: set<Header>)
    requires Linked(known) && !ReadState.Fits(header, known) && known.Values <= all && header in all
    ensures HeadersClash(all)
  {
    if header.number in known && known[header.number] != header {
      assert Clash(header, known[header.number]);
    } else if n: U64 :| n in known && n + 1 == header.number && header.parentHash != known[n].hash {
      assert Clash(header, known[n]);
    } else {
      var n: U64 :| n in known && n == header.number + 1 && known[n].parentHash != header.hash;
      assert Clash(known[n], header);
    }
  }

  lemma DisplacedClashes(logs: map<LogKey, TransferLog>, kept: set<TransferLog>, log: TransferLog,
                           all: set<TransferLog>)
    requires Holds(logs, kept) && KeyOf(log) in logs && logs[KeyOf(log)] != log && KeyOf(logs[KeyOf(log)]) == KeyOf(log)
    requires kept <= all && log in all
    ensures LogsClash(all)
  {
    assert logs[KeyOf(log)] in kept;
  }

  lemma ClashStays(lines: seq<Line>, n: nat, kept: set<TransferLog>)
    requires n <= |lines| && LogsClash(kept + LogsOf(lines[..n]))
    ensures LogsClash(kept + LogsOf(lines))
  {
    FirstLinesHold(lines, n);
    hide LogsOf;
  }

  lemma {:induction false} FirstLinesHold(lines: seq<Line>, n: nat)
    requires n <= |lines|
    ensures LogsOf(lines[..n]) <= LogsOf(lines)
  {
    if n == |lines| {
      assert lines[..n] == lines;
    } else {
      assert lines[..|lines| - 1][..n] == lines[..n];
      FirstLinesHold(lines[..|lines| - 1], n);
    }
  }

  lemma HoldsMore(logs: map<LogKey, TransferLog>, kept: set<TransferLog>, log: TransferLog)
    requires Holds(logs, kept)
    ensures (KeyOf(log) in logs ==> logs[KeyOf(log)] == log) ==> Holds(logs[KeyOf(log) := log], kept + {log})
  {
  }

  lemma PlacedStays(logs: map<LogKey, TransferLog>, before: map<U64, Header>, after: map<U64, Header>)
    requires Placed(logs, before) && Extends(before, after)
    ensures Placed(logs, after)
  {
  }

  lemma RegisteredStays(pages: seq<Page>, before: map<U64, Header>, after: map<U64, Header>)
    requires AllRegistered(pages, before) && Extends(before, after)
    ensures AllRegistered(pages, after)
  {
    forall p | p in pages
      ensures Registered(p.lines, after)
    {
      assert Registered(p.lines, before);
    }
  }

  lemma ExtendsFurther(a: map<U64, Header>, b: map<U64, Header>, c: map<U64, Header>)
    requires Extends(a, b) && Extends(b, c)
    ensures Extends(a, c)
  {
  }

  lemma NothingAsked(direction: Direction, r: Request, others: nat, ask: Endpoint)
    ensures Tiles([], direction, r.from, r.from) && Answered([], others, r, ask)
  {
  }

  /** The page was asked for by this direction and cursor, and ends with this block. */
  ghost predicate IsPageOf(page: Page, direction: Direction, cursor: U64, last: U64, n: nat, r: Request,
                           ask: Endpoint) {
    page.direction == direction && page.cursor == cursor && page.last == last && IsAnswer(page, n, r, ask)
  }

  lemma PageIsNext(pages: seq<Page>, page: Page, direction: Direction, cursor: U64, last: U64, others: nat, r: Request,
                   ask: Endpoint)
    requires Tiles(pages, direction, r.from, cursor) && Answered(pages, others, r, ask)
    requires IsPageOf(page, direction, cursor, last, others + |pages| + 1, r, ask)
    ensures Tiles(pages + [page], direction, r.from, last + 1) && Answered(pages + [page], others, r, ask)
    ensures cursor <= last <= r.through
  {
    hide Tiles, Answered, UsablePage;
    UsableEnds(page.lines, r, cursor);
    TilesMore(pages, page, r.from, cursor);
    AnsweredMore(pages, page, others, r, ask);
  }

  lemma StopsBy(e: Error, before: seq<Page>, taken: seq<Page>, direction: Direction, cursor: U64, r: Request,
                ask: Endpoint)
    requires before <= taken && Answered(taken[|before|..], |before|, r, ask)
    requires Tiles(taken[|before|..], direction, r.from, cursor) && Agrees(taken) && |taken| <= r.maxRequests
    requires r.from <= cursor <= r.through && Fails(e, taken, direction, cursor, r, ask)
    ensures Stops(e, before, taken, direction, r, ask)
  {
    hide Fails, Agrees, Answered, Tiles;
    ReadsThus(before, taken, direction, cursor, r, ask);
  }

  lemma ExtendsSelf(known: map<U64, Header>)
    ensures Extends(known, known)
  {
  }

  // ----- the merged history

  /** The order of the final list. */
  predicate Before(a: TransferLog, b: TransferLog) {
    a.blockNumber < b.blockNumber
    || (a.blockNumber == b.blockNumber
        && (a.entry.transactionIndex < b.entry.transactionIndex
            || (a.entry.transactionIndex == b.entry.transactionIndex && a.entry.logIndex < b.entry.logIndex)))
  }

  ghost predicate StrictlyOrdered(list: seq<TransferLog>) {
    forall i, j :: 0 <= i < j < |list| ==> Before(list[i], list[j])
  }

  /** Two kept logs never stand at the same place: a block number has one hash. */
  lemma PlacesDiffer(logs: map<LogKey, TransferLog>, headers: map<U64, Header>, a: LogKey, b: LogKey)
    requires Placed(logs, headers) && a in logs && b in logs && a != b
    ensures Before(logs[a], logs[b]) || Before(logs[b], logs[a])
  {
  }

  method InsertOrdered(list: seq<TransferLog>, log: TransferLog) returns (r: seq<TransferLog>)
    requires StrictlyOrdered(list) && forall x :: x in list ==> Before(x, log) || Before(log, x)
    ensures StrictlyOrdered(r) && forall x :: x in r <==> x in list || x == log
  {
    var at := 0;
    while at < |list| && Before(list[at], log)
      invariant at <= |list| && forall i :: 0 <= i < at ==> Before(list[i], log)
    {
      at := at + 1;
    }
    InsertedInOrder(list, at, log);
    r := list[..at] + [log] + list[at..];
  }

  lemma InsertedInOrder(list: seq<TransferLog>, at: nat, log: TransferLog)
    requires StrictlyOrdered(list) && forall x :: x in list ==> Before(x, log) || Before(log, x)
    requires at <= |list| && (forall i :: 0 <= i < at ==> Before(list[i], log))
    requires at < |list| ==> !Before(list[at], log)
    ensures var r := list[..at] + [log] + list[at..];
      StrictlyOrdered(r) && forall x :: x in r <==> x in list || x == log
  {
    forall i | at <= i < |list|
      ensures Before(log, list[i])
    {
      assert list[at] in list && list[i] in list;
    }
    assert list == list[..at] + list[at..];
  }

  /** The kept logs in their order. */
  method OrderedLogs(logs: map<LogKey, TransferLog>, ghost headers: map<U64, Header>) returns (list: seq<TransferLog>)
    requires Placed(logs, headers)
    ensures StrictlyOrdered(list)
    ensures forall log :: log in list <==> KeyOf(log) in logs && logs[KeyOf(log)] == log
  {
    hide Before;
    list := [];
    var left := logs.Keys;
    while left != {}
      invariant left <= logs.Keys && StrictlyOrdered(list)
      invariant forall log :: log in list <==> KeyOf(log) in logs && KeyOf(log) !in left && logs[KeyOf(log)] == log
      decreases |left|
    {
      var key :| key in left;
      forall x | x in list
        ensures Before(x, logs[key]) || Before(logs[key], x)
      {
        PlacesDiffer(logs, headers, KeyOf(x), key);
      }
      list := InsertOrdered(list, logs[key]);
      left := left - {key};
    }
  }

  datatype Observation = Observation(
    fromTerminal: Header, toTerminal: Header, logs: seq<TransferLog>, pages: seq<Page>)

  /** A history that may be reported: each direction is paged over exactly the whole range, all
      headers stand in one linked chain that ends in the expected block, and the logs are those
      of all pages, each once, strictly in order. */
  ghost predicate Complete(o: Observation, r: Request) {
    && (exists split :: 0 <= split <= |o.pages| && Tiles(o.pages[..split], From, r.from, r.through + 1)
                        && Tiles(o.pages[split..], To, r.from, r.through + 1))
    && (exists headers :: Linked(headers) && AllRegistered(o.pages, headers)
                          && r.through in headers && headers[r.through] == o.fromTerminal)
    && o.fromTerminal == o.toTerminal && o.fromTerminal.hash == r.expectedHash
    && StrictlyOrdered(o.logs) && (forall log :: log in o.logs <==> log in LogsOfPages(o.pages))
    && |o.pages| <= r.maxRequests
  }

  /** Known headers say whether the range ends as expected. */
  lemma AnchorIsKnown(pages: seq<Page>, headers: map<U64, Header>, r: Request)
    requires Linked(headers) && AllRegistered(pages, headers) && headers.Values <= HeadersOfPages(pages)
    requires r.through in headers
    ensures IsAnchored(pages, r) <==> headers[r.through].hash == r.expectedHash
  {
    PagesAreKnown(pages, headers);
    hide AllRegistered, HeadersOfPages;
    assert headers[r.through] in headers.Values;
  }

  lemma KnownStays(before: map<U64, Header>, after: map<U64, Header>, n: U64)
    requires Extends(before, after) && n in before
    ensures n in after && after[n] == before[n]
  {
  }

  /** A direction read to its end took a page, within the budget. */
  lemma ReadWithinBudget(pages: seq<Page>, before: seq<Page>, direction: Direction, next: int, r: Request,
                         ask: Endpoint)
    requires Reads(pages, before, direction, next, r, ask) && next > r.from
    ensures before <= pages && |before| < |pages| <= r.maxRequests
  {
  }

  lemma ReadIsComplete(o: Observation, first: seq<Page>, headers: map<U64, Header>, r: Request, ask: Endpoint)
    requires IsRead(first, o.pages, r, ask) && Linked(headers) && AllRegistered(o.pages, headers)
    requires r.through in headers && headers[r.through] == o.fromTerminal == o.toTerminal
    requires o.fromTerminal.hash == r.expectedHash && StrictlyOrdered(o.logs)
    requires forall log :: log in o.logs <==> log in LogsOfPages(o.pages)
    ensures Complete(o, r) && Answered(o.pages, 0, r, ask)
  {
    hide Linked, AllRegistered, StrictlyOrdered, LogsOfPages, Agrees, Tiles, IsAnswer;
    var split := |first|;
    assert first[0..] == first && o.pages[..split] == first;
    assert Tiles(o.pages[..split], From, r.from, r.through + 1) && Tiles(o.pages[split..], To, r.from, r.through + 1);
    forall p | 0 <= p < |o.pages|
      ensures IsAnswer(o.pages[p], p + 1, r, ask)
    {
      if p < split {
        assert IsAnswer(first[0..][p], 0 + p + 1, r, ask);
      } else {
        assert IsAnswer(o.pages[split..][p - split], split + (p - split) + 1, r, ask);
      }
    }
  }

  /** Reads both directions. An observation comes out exactly when the endpoint tells one, and an
      error exactly for its one reason. */
  method ReadHistory(r: Request, ask: Endpoint) returns (result: Result<Observation>)
    ensures result.Ok? <==> Tells(r, ask)
    ensures forall e: Error :: result == Err(e) <==> Refuses(e, r, ask)
    ensures result.Ok? ==> Complete(result.value, r) && Answered(result.value.pages, 0, r, ask)
  {
    hide Tiles, LogsOfPages, Linked, Placed, AllRegistered, StrictlyOrdered, Reads, Stops, HeadersOfPages, IsAnchored;
    hide Complete, Tells, Refuses, Extends, Answered;
    if r.from > r.through || r.maxRequests == 0 || r.maxRequests > MAX_HISTORY_REQUESTS {
      InputRefused(r, ask);
      return Err(InvalidInput);
    }
    if r.maxRequests < 2 {
      InputRefused(r, ask);
      return Err(RequestBudgetExceeded);
    }
    var state := new ReadState();
    var from := state.ReadDirection(r, From, ask);
    if from.Err? {
      StoppedBy(from.error, [], state.pages, r, ask);
      return Err(from.error);
    }
    ghost var first, known := state.pages, state.headers;
    ReadWithinBudget(first, [], From, r.through + 1, r, ask);
    var to := state.ReadDirection(r, To, ask);
    if to.Err? {
      StoppedBy(to.error, first, state.pages, r, ask);
      return Err(to.error);
    }
    assert from.value == to.value == state.headers[r.through] by { KnownStays(known, state.headers, r.through); }
    AnchorIsKnown(state.pages, state.headers, r);
    if from.value != to.value || from.value.hash != r.expectedHash || to.value.hash != r.expectedHash {
      AnchorRefused(first, state.pages, r, ask);
      return Err(AnchorMismatch);
    }
    var logs := OrderedLogs(state.logs, state.headers);
    result := Ok(Observation(from.value, to.value, logs, state.pages));
    ToldBy(first, state.pages, r, ask);
    ReadIsComplete(result.value, first, state.headers, r, ask);
  }
}
