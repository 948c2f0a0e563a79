/** The pages of a transfer history: what they hold, when they are usable, and which sequences of
    them tell one history. */
module HistoryPages {
  import opened Words

  const MAX_HISTORY_REQUESTS: nat := 512

  datatype Direction = From | To

  datatype Header = Header(number: U64, hash: Hash, parentHash: Hash, roots: nat)

  /** A log as it stands in a page, and with the block that it stands under. */
  datatype Entry = Entry(transactionIndex: U64, logIndex: U64, content: nat)
  datatype TransferLog = TransferLog(blockNumber: U64, blockHash: Hash, entry: Entry)

  /** One line of a page: a block with its logs, or something that does not normalise. */
  datatype Line = BadLine | BlockLine(header: Header, entries: seq<Entry>)

  /** What the endpoint answers to a request. */
  datatype Reply = Lines(lines: seq<Line>) | NoReply

  datatype Error =
    | InvalidInput | RequestBudgetExceeded | RequestFailed | MalformedResponse | Incomplete | InvalidPageCursor
    | ConflictingHeader | ConflictingLocator | AnchorMismatch

  datatype Result<T> = Ok(value: T) | Err(error: Error)

  datatype Page = Page(direction: Direction, cursor: U64, last: U64, lines: seq<Line>)

  datatype Request = Request(from: U64, through: U64, expectedHash: Hash, maxRequests: nat)

  type LogKey = (Hash, U64)

  function LogOf(header: Header, entry: Entry): TransferLog { TransferLog(header.number, header.hash, entry) }

  function KeyOf(log: TransferLog): LogKey { (log.blockHash, log.entry.logIndex) }

  // ----- pages

  /** A page that is usable at a cursor: its blocks rise strictly from the cursor on and stay in
      the range. */
  ghost predicate UsablePage(lines: seq<Line>, r: Request, cursor: U64) {
    && lines != [] && Rises(lines, |lines|, r) && lines[0].header.number == cursor
  }

  /** The logs of some lines, as a set. */
  ghost function LogsOf(lines: seq<Line>): set<TransferLog> {
    if lines == [] then {} else LogsOf(lines[..|lines| - 1]) + LogsOfLine(lines[|lines| - 1])
  }

  ghost function LogsOfLine(line: Line): set<TransferLog> {
    if line.BadLine? then {} else set i | 0 <= i < |line.entries| :: LogOf(line.header, line.entries[i])
  }

  ghost function LogsOfPages(pages: seq<Page>): set<TransferLog> {
    if pages == [] then {} else LogsOfPages(pages[..|pages| - 1]) + LogsOf(pages[|pages| - 1].lines)
  }

  lemma LogsOfMore(lines: seq<Line>, line: Line)
    ensures LogsOf(lines + [line]) == LogsOf(lines) + LogsOfLine(line)
  {
    assert (lines + [line])[..|lines|] == lines;
  }

  lemma LogsOfPagesMore(pages: seq<Page>, page: Page)
    ensures LogsOfPages(pages + [page]) == LogsOfPages(pages) + LogsOf(page.lines)
  {
    assert (pages + [page])[..|pages|] == pages;
  }

  /** The headers of some lines, as a set. */
  ghost function HeadersOf(lines: seq<Line>): set<Header> {
    set i | 0 <= i < |lines| && lines[i].BlockLine? :: lines[i].header
  }

  ghost function HeadersOfPages(pages: seq<Page>): set<Header> {
    if pages == [] then {} else HeadersOfPages(pages[..|pages| - 1]) + HeadersOf(pages[|pages| - 1].lines)
  }

  lemma HeadersOfPagesMore(pages: seq<Page>, page: Page)
    ensures HeadersOfPages(pages + [page]) == HeadersOfPages(pages) + HeadersOf(page.lines)
  {
    assert (pages + [page])[..|pages|] == pages;
  }

  /** Two headers at one number differ, or neighbours do not link. */
  ghost predicate HeadersClash(headers: set<Header>) {
    exists a, b :: a in headers && b in headers && Clash(a, b)
  }

  ghost predicate Clash(a: Header, b: Header) {
    (a.number == b.number && a != b) || (a.number == b.number + 1 && a.parentHash != b.hash)
  }

  /** Two logs at one locator differ. */
  ghost predicate LogsClash(logs: set<TransferLog>) {
    exists a, b :: a in logs && b in logs && KeyOf(a) == KeyOf(b) && a != b
  }

  /** The first pages hold no more than all of them. */
  lemma {:induction false} FirstPagesHold(pages: seq<Page>, k: nat)
    requires k <= |pages|
    ensures HeadersOfPages(pages[..k]) <= HeadersOfPages(pages)
    ensures LogsOfPages(pages[..k]) <= LogsOfPages(pages)
  {
    if k == |pages| {
      assert pages[..k] == pages;
    } else {
      assert pages[..|pages| - 1][..k] == pages[..k];
      FirstPagesHold(pages[..|pages| - 1], k);
    }
  }

  /** Pages of one direction that cover a range without gap or overlap. */
  ghost predicate Tiles(pages: seq<Page>, direction: Direction, from: int, next: int) {
    && (forall p :: 0 <= p < |pages| ==> pages[p].direction == direction && pages[p].cursor <= pages[p].last)
    && (forall p :: 0 <= p < |pages| - 1 ==> pages[p + 1].cursor == pages[p].last + 1)
    && (if pages == [] then next == from else pages[0].cursor == from && pages[|pages| - 1].last + 1 == next)
  }

  lemma TilesMore(pages: seq<Page>, page: Page, from: int, next: int)
    requires Tiles(pages, page.direction, from, next) && page.cursor == next && page.cursor <= page.last
    ensures Tiles(pages + [page], page.direction, from, page.last + 1)
  {
    var more := pages + [page];
    forall p | 0 <= p < |more| - 1
      ensures more[p + 1].cursor == more[p].last + 1
    {
      if p < |pages| - 1 { assert pages[p + 1].cursor == pages[p].last + 1; }
    }
  }

  /** The first n lines are blocks that rise strictly and stay in the range. */
  ghost predicate Rises(lines: seq<Line>, n: nat, r: Request)
    requires n <= |lines|
  {
    && (forall i :: 0 <= i < n ==> lines[i].BlockLine? && r.from <= lines[i].header.number <= r.through)
    && (forall i, j :: 0 <= i < j < n ==>
          lines[i].BlockLine? && lines[j].BlockLine? && lines[i].header.number < lines[j].header.number)
  }

  /** A line that does not normalise, after lines that are in order. */
  ghost predicate IsMalformed(lines: seq<Line>, r: Request) {
    exists n :: 0 <= n < |lines| && Rises(lines, n, r) && lines[n].BadLine?
  }

  /** A block out of order or out of the range, or a first block that is not the cursor's. */
  ghost predicate IsAstray(lines: seq<Line>, r: Request, cursor: U64) {
    || (exists n :: 0 <= n < |lines| && Rises(lines, n, r) && lines[n].BlockLine? && !Rises(lines, n + 1, r))
    || (lines != [] && Rises(lines, |lines|, r) && lines[0].header.number != cursor)
  }

  /** The ordering rules of a page, and why a page is refused. */
  method ParsePage(lines: seq<Line>, r: Request, cursor: U64) returns (error: Option<Error>)
    ensures error.None? <==> UsablePage(lines, r, cursor)
    ensures error == Some(Incomplete) <==> lines == []
    ensures error == Some(MalformedResponse) <==> IsMalformed(lines, r)
    ensures error == Some(InvalidPageCursor) <==> IsAstray(lines, r, cursor)
    ensures error in {None, Some(Incomplete), Some(MalformedResponse), Some(InvalidPageCursor)}
  {
    hide UsablePage, IsMalformed, IsAstray;
    for n := 0 to |lines|
      invariant Rises(lines, n, r)
    {
      if lines[n].BadLine? {
        RefusedHere(lines, n, r, cursor);
        return Some(MalformedResponse);
      }
      var number := lines[n].header.number;
      if (n > 0 && number <= lines[n - 1].header.number) || number < r.from || number > r.through {
        RefusedHere(lines, n, r, cursor);
        return Some(InvalidPageCursor);
      }
    }
    RefusedHere(lines, |lines|, r, cursor);
    if lines == [] { return Some(Incomplete); }
    if lines[0].header.number != cursor { return Some(InvalidPageCursor); }
    error := None;
  }

  /** Only the first line that is not in order can be the reason of a refusal. */
  lemma RefusedHere(lines: seq<Line>, n: nat, r: Request, cursor: U64)
    requires n <= |lines| && Rises(lines, n, r)
    requires n < |lines| ==> lines[n].BadLine? || !Rises(lines, n + 1, r)
    ensures IsMalformed(lines, r) <==> n < |lines| && lines[n].BadLine?
    ensures IsAstray(lines, r, cursor) <==>
      if n < |lines| then lines[n].BlockLine? else lines != [] && lines[0].header.number != cursor
    ensures UsablePage(lines, r, cursor) <==> n == |lines| && lines != [] && lines[0].header.number == cursor
  {
    OnlyHere(lines, n, r);
    hide Rises;
    assert lines != [] && n == |lines| ==> lines[0].BlockLine?;
  }

  lemma OnlyHere(lines: seq<Line>, n: nat, r: Request)
    requires n <= |lines| && Rises(lines, n, r)
    requires n < |lines| ==> lines[n].BadLine? || !Rises(lines, n + 1, r)
    ensures forall m :: 0 <= m < n ==> lines[m].BlockLine? && Rises(lines, m + 1, r)
    ensures forall m :: n < m <= |lines| ==> !Rises(lines, m, r)
  {
    forall m | 0 <= m < n
      ensures lines[m].BlockLine? && Rises(lines, m + 1, r)
    {
      FewerRise(lines, m, n, r);
    }
    forall m | n < m <= |lines|
      ensures !Rises(lines, m, r)
    {
      if Rises(lines, m, r) { FewerRise(lines, n, m, r); }
    }
  }

  lemma FewerRise(lines: seq<Line>, k: nat, m: nat, r: Request)
    requires k < m <= |lines| && Rises(lines, m, r)
    ensures lines[k].BlockLine? && Rises(lines, k + 1, r)
  {
  }

  // ----- headers and logs seen so far

  /** Headers stand under their own numbers and neighbours are linked by parent hash. */
  ghost predicate Linked(headers: map<U64, Header>) {
    && (forall n :: n in headers ==> headers[n].number == n)
    && (forall n: U64, m: U64 :: n in headers && m in headers && m == n + 1 ==>
          headers[m].parentHash == headers[n].hash)
  }

  /** Logs stand under their locators, and under headers that are known. */
  ghost predicate Placed(logs: map<LogKey, TransferLog>, headers: map<U64, Header>) {
    forall k :: k in logs ==> KeyOf(logs[k]) == k && logs[k].blockNumber in headers
                              && headers[logs[k].blockNumber].hash == logs[k].blockHash
  }

  /** The map holds exactly these logs. */
  ghost predicate Holds(logs: map<LogKey, TransferLog>, kept: set<TransferLog>) {
    forall log :: log in kept <==> KeyOf(log) in logs && logs[KeyOf(log)] == log
  }

  /** Every header of some lines is known. */
  ghost predicate Registered(lines: seq<Line>, headers: map<U64, Header>) {
    forall i :: 0 <= i < |lines| && lines[i].BlockLine? ==>
      lines[i].header.number in headers && headers[lines[i].header.number] == lines[i].header
  }

  ghost predicate AllRegistered(pages: seq<Page>, headers: map<U64, Header>) {
    forall p :: p in pages ==> Registered(p.lines, headers)
  }

  /** What is known stays known. */
  ghost predicate Extends(before: map<U64, Header>, after: map<U64, Header>) {
    forall n :: n in before ==> n in after && after[n] == before[n]
  }

  // ----- what was asked

  /** The endpoint, by direction, cursor and the number of the request. */
  type Endpoint = (Direction, U64, nat) -> Reply

  /** The page is the endpoint's answer to the n-th request, and usable. */
  ghost predicate IsAnswer(page: Page, n: nat, r: Request, ask: Endpoint) {
    && ask(page.direction, page.cursor, n) == Lines(page.lines) && UsablePage(page.lines, r, page.cursor)
    && page.last == page.lines[|page.lines| - 1].header.number
  }

  /** The pages are the answers to as many requests, after so many others. */
  ghost predicate Answered(pages: seq<Page>, others: nat, r: Request, ask: Endpoint) {
    forall p :: 0 <= p < |pages| ==> IsAnswer(pages[p], others + p + 1, r, ask)
  }

  lemma UsableEnds(lines: seq<Line>, r: Request, cursor: U64)
    requires UsablePage(lines, r, cursor)
    ensures lines != [] && lines[|lines| - 1].BlockLine?
    ensures cursor <= lines[|lines| - 1].header.number <= r.through
  {
  }

  lemma AnsweredMore(pages: seq<Page>, page: Page, others: nat, r: Request, ask: Endpoint)
    requires Answered(pages, others, r, ask) && IsAnswer(page, others + |pages| + 1, r, ask)
    ensures Answered(pages + [page], others, r, ask)
  {
    hide IsAnswer;
  }

  /** The next request, or what it would add to the pages taken, is at fault in just this way. */
  ghost predicate Fails(e: Error, taken: seq<Page>, direction: Direction, cursor: U64, r: Request, ask: Endpoint) {
    if e == RequestBudgetExceeded then
      |taken| >= r.maxRequests
    else
      && |taken| < r.maxRequests
      && var reply := ask(direction, cursor, |taken| + 1);
         match e
         case RequestFailed => reply.NoReply?
         case Incomplete => reply.Lines? && reply.lines == []
         case MalformedResponse => reply.Lines? && IsMalformed(reply.lines, r)
         case InvalidPageCursor => reply.Lines? && IsAstray(reply.lines, r, cursor)
         case ConflictingHeader =>
           && reply.Lines? && UsablePage(reply.lines, r, cursor)
           && HeadersClash(HeadersOfPages(taken) + HeadersOf(reply.lines))
         case ConflictingLocator =>
           && reply.Lines? && UsablePage(reply.lines, r, cursor)
           && !HeadersClash(HeadersOfPages(taken) + HeadersOf(reply.lines))
           && LogsClash(LogsOfPages(taken) + LogsOf(reply.lines))
         case _ => false
  }

  /** No two headers and no two logs of these pages clash. */
  ghost predicate Agrees(pages: seq<Page>) {
    !HeadersClash(HeadersOfPages(pages)) && !LogsClash(LogsOfPages(pages))
  }

  /** After some pages, those of a direction up to a block: asked in order, within the budget, and
      in agreement with all before. */
  ghost predicate Reads(pages: seq<Page>, before: seq<Page>, direction: Direction, next: int, r: Request,
                        ask: Endpoint) {
    && before <= pages && Answered(pages[|before|..], |before|, r, ask)
    && Tiles(pages[|before|..], direction, r.from, next) && Agrees(pages) && |pages| <= r.maxRequests
  }

  /** A direction stops for this reason: the next request after its pages so far fails. */
  ghost predicate Stops(e: Error, before: seq<Page>, taken: seq<Page>, direction: Direction, r: Request,
                        ask: Endpoint) {
    exists cursor: U64 ::
      r.from <= cursor <= r.through && Reads(taken, before, direction, cursor, r, ask)
      && Fails(e, taken, direction, cursor, r, ask)
  }

  lemma ReadsThus(before: seq<Page>, pages: seq<Page>, direction: Direction, next: int, r: Request, ask: Endpoint)
    requires before <= pages && Answered(pages[|before|..], |before|, r, ask)
    requires Tiles(pages[|before|..], direction, r.from, next) && Agrees(pages) && |pages| <= r.maxRequests
    ensures Reads(pages, before, direction, next, r, ask)
  {
  }

  ghost predicate IsValid(r: Request) { r.from <= r.through && 1 <= r.maxRequests <= 512 }

  /** The whole history is read: first by sender, then by recipient. */
  ghost predicate IsRead(first: seq<Page>, pages: seq<Page>, r: Request, ask: Endpoint) {
    && IsValid(r) && 2 <= r.maxRequests
    && Reads(first, [], From, r.through + 1, r, ask) && Reads(pages, first, To, r.through + 1, r, ask)
  }

  /** The last block of the range is the expected one. */
  ghost predicate IsAnchored(pages: seq<Page>, r: Request) {
    exists h :: h in HeadersOfPages(pages) && h.number == r.through && h.hash == r.expectedHash
  }

  /** The endpoint tells a history that may be reported. */
  ghost predicate Tells(r: Request, ask: Endpoint) {
    exists first, pages :: IsRead(first, pages, r, ask) && IsAnchored(pages, r)
  }

  /** The reason why there is none. */
  ghost predicate Refuses(e: Error, r: Request, ask: Endpoint) {
    match e
    case InvalidInput => !IsValid(r)
    case AnchorMismatch => exists first, pages :: IsRead(first, pages, r, ask) && !IsAnchored(pages, r)
    case _ =>
      IsValid(r)
      && if r.maxRequests < 2 then e == RequestBudgetExceeded
         else StopsFirst(e, r, ask) || StopsThen(e, r, ask)
  }

  ghost predicate StopsFirst(e: Error, r: Request, ask: Endpoint) { exists taken :: Stops(e, [], taken, From, r, ask) }

  ghost predicate StopsThen(e: Error, r: Request, ask: Endpoint) {
    exists first, taken :: Reads(first, [], From, r.through + 1, r, ask) && Stops(e, first, taken, To, r, ask)
  }
}
