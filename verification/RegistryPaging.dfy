/** internal/mcp/tools_anchor.go: paging over a registry table that lives on a chain. The table only
    grows, by rows with higher IDs, and may have grown before every call. */
module RegistryPaging {
  import opened Outcomes
  import opened Cursors

  datatype Registry = Registry(id: nat, name: string)

  type Table = seq<Registry>

  ghost predicate WellFormed(t: Table) {
    && (forall i :: 0 <= i < |t| ==> 1 <= t[i].id < UINT64_SPAN)
    && forall i, j :: 0 <= i < j < |t| ==> t[i].id < t[j].id
  }

  /** IDs are dense when row i has ID i + 1, which the last ID tells. */
  ghost predicate Dense(t: Table) {
    forall i :: 0 <= i < |t| ==> t[i].id == i + 1
  }

  lemma {:induction false} LastIDBoundsSize(t: Table)
    requires WellFormed(t) && t != []
    ensures |t| <= t[|t| - 1].id
    ensures |t| == t[|t| - 1].id <==> Dense(t)
  {
    var init := t[..|t| - 1];
    if init != [] {
      LastIDBoundsSize(init);
    }
  }

  /** Rows a to b of a table. */
  function Part(t: Table, a: nat, b: nat): (r: Table)
    requires a <= b <= |t|
    ensures |r| == b - a
  {
    t[a..b]
  }

  lemma PartsJoin(t: Table, a: nat, b: nat, c: nat)
    requires a <= b <= c <= |t|
    ensures Part(t, a, b) + Part(t, b, c) == Part(t, a, c)
  {
  }

  /** A later state of the same table. */
  ghost predicate GrowsInto(t: Table, later: Table) {
    t <= later
  }

  lemma PartStays(t: Table, later: Table, a: nat, b: nat)
    requires GrowsInto(t, later) && a <= b <= |t|
    ensures |t| <= |later| && Part(t, a, b) == Part(later, a, b)
  {
  }

  // ---------- the chain ----------

  datatype Failure = ChainError | InvalidCursorError | InvalidMatchMode

  datatype PageRequest = PageRequest(key: Bytes, offset: nat, limit: nat)

  datatype PageResponse = PageResponse(rows: seq<Registry>, nextKey: string)

  /** What call i meets: the table, whether the call fails, and the row count that is reported. */
  datatype Chain = Chain(table: nat -> Table, fails: nat -> bool, count: nat -> nat, cap: nat)

  function TableAt(c: Chain, call: nat): Table { c.table(call) }

  predicate FailsAt(c: Chain, call: nat) { c.fails(call) }

  function CountAt(c: Chain, call: nat): nat { c.count(call) }

  ghost predicate GrowingChain(c: Chain) {
    && c.cap >= 1
    && (forall i: nat :: WellFormed(TableAt(c, i)))
    && forall i: nat, j: nat :: i <= j ==> GrowsInto(TableAt(c, i), TableAt(c, j))
  }

  lemma ChainFacts(c: Chain, i: nat, j: nat)
    requires GrowingChain(c) && i <= j
    ensures c.cap >= 1 && WellFormed(TableAt(c, i)) && WellFormed(TableAt(c, j))
    ensures GrowsInto(TableAt(c, i), TableAt(c, j)) && |TableAt(c, i)| <= |TableAt(c, j)|
  {
  }

  /** The position of the first row whose ID is not below id. */
  function Seek(t: Table, id: nat): (p: nat)
    ensures p <= |t|
  {
    if t == [] || t[0].id >= id then 0 else 1 + Seek(t[1..], id)
  }

  lemma {:induction false} SeekFindsRow(t: Table, i: nat)
    requires WellFormed(t) && i < |t|
    ensures Seek(t, t[i].id) == i
  {
    if i > 0 {
      SeekFindsRow(t[1..], i - 1);
    }
  }

  function StartOf(t: Table, cursor: Bytes, offset: nat): (p: nat)
    ensures p <= |t|
  {
    if |cursor| > 0 then Seek(t, FromBigEndian(cursor)) else Min(offset, |t|)
  }

  /** The cursor of the row at position p, empty when the table ends there. */
  function NextKeyAt(t: Table, p: nat): string {
    if p < |t| then CursorOf(t[p].id) else ""
  }

  function Serve(t: Table, cap: nat, req: PageRequest): PageResponse {
    var start := StartOf(t, req.key, req.offset);
    var rows := RowsFrom(t, start, Min(req.limit, cap));
    PageResponse(rows, NextKeyAt(t, start + |rows|))
  }

  method GetRegistries(c: Chain, call: nat, req: PageRequest) returns (r: Result<PageResponse, Failure>)
    requires c.cap >= 1 && req.limit >= 1
    ensures r == if FailsAt(c, call) then Err(ChainError) else Ok(Serve(TableAt(c, call), c.cap, req))
  {
    r := if FailsAt(c, call) then Err(ChainError) else Ok(Serve(TableAt(c, call), c.cap, req));
  }

  /** The answer to "the last row, please". */
  datatype Peek = PeekFailed | NoRows | LastID(id: nat)

  function PeekAt(c: Chain, call: nat): Peek {
    var t := TableAt(c, call);
    if FailsAt(c, call) then PeekFailed else if t == [] then NoRows else LastID(t[|t| - 1].id)
  }

  // ---------- the unfiltered listing ----------

  const NAME_SCAN_PAGE_SIZE: nat := 200
  const MAX_NAME_SCAN_PAGES: nat := 50

  lemma ScanLimits()
    ensures NAME_SCAN_PAGE_SIZE == 200 && MAX_NAME_SCAN_PAGES == 50
  {
  }

  /** Rows per fetch, whichever of the two caps is lower. */
  function PageRows(cap: nat): nat {
    Min(NAME_SCAN_PAGE_SIZE, cap)
  }

  /** The rows k full pages hold. */
  function Pages(k: nat, page: nat): nat {
    k * page
  }

  lemma OneMorePage(k: nat, page: nat)
    ensures Pages(0, page) == 0 && Pages(k + 1, page) == Pages(k, page) + page
  {
  }

  lemma {:induction false} FewerPages(k: nat, n: nat, page: nat)
    requires k <= n
    ensures Pages(k, page) <= Pages(n, page)
    decreases n - k
  {
    if k < n {
      FewerPages(k + 1, n, page);
      OneMorePage(k, page);
    }
  }

  function MaxCount(c: Chain, calls: nat): nat {
    if calls == 0 then 0 else Max(MaxCount(c, calls - 1), CountAt(c, calls - 1))
  }

  lemma MaxCountStep(c: Chain, calls: nat)
    ensures MaxCount(c, 0) == 0 && MaxCount(c, calls + 1) == Max(MaxCount(c, calls), CountAt(c, calls))
  {
  }

  /** The count that the total uses is the highest any of the calls reported. */
  lemma {:induction false} MaxCountIsHighest(c: Chain, calls: nat)
    ensures forall i: nat :: i < calls ==> CountAt(c, i) <= MaxCount(c, calls)
    ensures calls > 0 ==> exists i: nat :: i < calls && CountAt(c, i) == MaxCount(c, calls)
    ensures calls == 0 ==> MaxCount(c, calls) == 0
  {
    if calls > 0 {
      MaxCountIsHighest(c, calls - 1);
      assert CountAt(c, calls - 1) <= MaxCount(c, calls);
    }
  }

  /** The next fetch of a listing that still misses `missing` rows. */
  function ListingRequest(cursor: Bytes, offset: nat, missing: nat): (req: PageRequest)
    requires missing >= 1
    ensures req.limit >= 1
  {
    PageRequest(cursor, if |cursor| > 0 then 0 else offset, Min(missing, NAME_SCAN_PAGE_SIZE))
  }

  /** Table t, read from position start, at most `most` rows, and the cursor behind them. */
  function RowsFrom(t: Table, start: nat, most: nat): (rows: seq<Registry>)
    requires start <= |t|
    ensures |rows| == Min(most, |t| - start)
  {
    Part(t, start, start + Min(most, |t| - start))
  }

  ghost predicate AreRows(t: Table, start: nat, most: nat, rows: seq<Registry>) {
    start <= |t| && rows == RowsFrom(t, start, most)
  }

  datatype Listing = Listing(rows: seq<Registry>, total: nat, lowerBound: bool, nextKey: string)

  /** The total: the chain's count, else the end of an offset page that ended the table, else the last ID. */
  function ListingTotal(
    chainTotal: nat, offset: nat, rows: nat, hasMore: bool, fromCursor: bool, peek: Peek): (nat, bool)
  {
    if chainTotal > 0 then (chainTotal, true)
    else if !hasMore && !fromCursor && (rows > 0 || offset == 0) then (offset + rows, true)
    else
      match peek
      case PeekFailed => (offset + rows, false)
      case NoRows => (0, true)
      case LastID(id) => (id, true)
  }

  /** The cursor bytes of the row at position p, none when the table ends there. */
  ghost predicate CursorAt(t: Table, p: nat, cursor: Bytes) {
    p <= |t| && cursor == if p < |t| then IDBytes(t[p].id) else []
  }

  ghost predicate NamesRow(t: Table, p: nat, key: string) {
    p <= |t| && key == NextKeyAt(t, p)
  }

  lemma NextCursorFits(t: Table, p: nat, key: string)
    requires WellFormed(t) && NamesRow(t, p, key)
    ensures key == "" <==> p == |t|
    ensures CursorBytes(key).Some? && CursorAt(t, p, CursorBytes(key).value)
  {
    if p < |t| {
      CursorRoundTrip(IDBytes(t[p].id));
    }
  }

  lemma CursorTellsEnd(t: Table, p: nat, cursor: Bytes)
    requires CursorAt(t, p, cursor)
    ensures |cursor| == 0 <==> p == |t|
    ensures NamesRow(t, p, EncodeCursor(cursor))
  {
  }

  lemma CursorFindsRowLater(t: Table, later: Table, p: nat, cursor: Bytes)
    requires WellFormed(t) && WellFormed(later) && GrowsInto(t, later) && p < |t| && CursorAt(t, p, cursor)
    ensures StartOf(later, cursor, 0) == p && |cursor| > 0
  {
    IDBytesRoundTrip(t[p].id);
    SeekFindsRow(later, p);
  }

  lemma NoCursorIsStart(t: Table, cursor: Bytes)
    ensures |cursor| == 0 ==> StartOf(t, cursor, 0) == 0
  {
  }

  /** A fetch whose start is known. */
  lemma ServedFrom(t: Table, cap: nat, req: PageRequest, p: nat, resp: PageResponse)
    requires resp == Serve(t, cap, req) && StartOf(t, req.key, req.offset) == p && p <= |t|
    ensures AreRows(t, p, Min(req.limit, cap), resp.rows)
    ensures |resp.rows| == Min(Min(req.limit, cap), |t| - p)
    ensures NamesRow(t, p + |resp.rows|, resp.nextKey)
  {
  }

  /** What the fetches so far amount to: k of them were made, the last one on table t. */
  ghost predicate Fetched(t: Table, start: nat, limit: nat, page: nat, k: nat, rows: seq<Registry>) {
    && start + |rows| <= |t|
    && rows == Part(t, start, start + |rows|)
    && (start + |rows| < |t| ==> |rows| == Min(limit, Pages(k, page)))
    && |rows| <= Min(limit, Pages(k, page))
  }

  lemma FetchStep(
    t: Table, later: Table, start: nat, limit: nat, cap: nat, k: nat, rows: seq<Registry>, more: seq<Registry>)
    requires GrowsInto(t, later) && cap >= 1
    requires Fetched(t, start, limit, PageRows(cap), k, rows) && |rows| < limit
    requires k == 0 || start + |rows| < |t|
    requires AreRows(later, start + |rows|, Min(Min(limit - |rows|, NAME_SCAN_PAGE_SIZE), cap), more)
    ensures Fetched(later, start, limit, PageRows(cap), k + 1, rows + more)
  {
    hide Part, GrowsInto, Pages;
    OneMorePage(k, PageRows(cap));
    var p := start + |rows|;
    PartStays(t, later, start, p);
    PartsJoin(later, start, p, p + |more|);
  }

  lemma FetchesEnd(t: Table, start: nat, limit: nat, page: nat, k: nat, rows: seq<Registry>)
    requires Fetched(t, start, limit, page, k, rows) && k <= MAX_NAME_SCAN_PAGES
    requires k == MAX_NAME_SCAN_PAGES || start + |rows| == |t| || |rows| >= limit
    ensures AreRows(t, start, Min(limit, Pages(MAX_NAME_SCAN_PAGES, page)), rows)
  {
    hide Pages, Part;
    FewerPages(k, MAX_NAME_SCAN_PAGES, page);
  }

  /** The table call number k - 1 met, or the one call 0 will meet. */
  ghost function LastTable(c: Chain, k: nat): Table {
    TableAt(c, if k == 0 then 0 else k - 1)
  }

  /** The listing after k fetches. */
  ghost predicate Midway(c: Chain, cursor0: Bytes, offset: nat, limit: nat,
                         k: nat, rows: seq<Registry>, cursor: Bytes)
  {
    var t, start := LastTable(c, k), StartOf(TableAt(c, 0), cursor0, offset);
    && Fetched(t, start, limit, PageRows(c.cap), k, rows)
    && if k == 0 then cursor == cursor0 && rows == [] else CursorAt(t, start + |rows|, cursor)
  }

  lemma MidwayStart(c: Chain, cursor0: Bytes, offset: nat, limit: nat)
    ensures Midway(c, cursor0, offset, limit, 0, [], cursor0)
  {
    OneMorePage(0, PageRows(c.cap));
  }

  lemma MidwayStep(c: Chain, cursor0: Bytes, offset: nat, limit: nat,
                   k: nat, rows: seq<Registry>, cursor: Bytes, resp: PageResponse)
    requires GrowingChain(c) && Midway(c, cursor0, offset, limit, k, rows, cursor)
    requires |rows| < limit && resp == Serve(TableAt(c, k), c.cap, ListingRequest(cursor, offset, limit - |rows|))
    requires (k == 0 || |cursor| > 0) && (|cursor0| > 0 ==> offset == 0)
    ensures CursorBytes(resp.nextKey).Some?
    ensures Midway(c, cursor0, offset, limit, k + 1, rows + resp.rows, CursorBytes(resp.nextKey).value)
  {
    hide Part, GrowsInto, TableAt, GrowingChain, WellFormed, CursorAt, CursorBytes, NextKeyAt, StartOf, RowsFrom,
         Serve, AreRows, NamesRow, Pages, Fetched;
    var t, later, start := LastTable(c, k), TableAt(c, k), StartOf(TableAt(c, 0), cursor0, offset);
    ChainFacts(c, if k == 0 then 0 else k - 1, k);
    var p := start + |rows|;
    if k > 0 {
      CursorTellsEnd(t, p, cursor);
      CursorFindsRowLater(t, later, p, cursor);
    }
    ServedFrom(later, c.cap, ListingRequest(cursor, offset, limit - |rows|), p, resp);
    FetchStep(t, later, start, limit, c.cap, k, rows, resp.rows);
    NextCursorFits(later, p + |resp.rows|, resp.nextKey);
  }

  /** The listing is one contiguous run of the table the last fetch met, as long as it can be; the
      cursor is that of the row behind it, and empty exactly when the table ended. */
  ghost predicate ListingIsRight(c: Chain, cursor0: Bytes, offset: nat, limit: nat, fetches: nat, l: Listing) {
    var t, start := LastTable(c, fetches), StartOf(TableAt(c, 0), cursor0, offset);
    && AreRows(t, start, Min(limit, Pages(MAX_NAME_SCAN_PAGES, PageRows(c.cap))), l.rows)
    && NamesRow(t, start + |l.rows|, l.nextKey)
    && (l.nextKey == "" <==> start + |l.rows| == |t|)
    && (l.total, !l.lowerBound) ==
       ListingTotal(MaxCount(c, fetches), offset, |l.rows|, start + |l.rows| < |t|, |cursor0| > 0, PeekAt(c, fetches))
  }

  lemma MidwayEnd(c: Chain, cursor0: Bytes, offset: nat, limit: nat,
                  k: nat, rows: seq<Registry>, cursor: Bytes)
    requires GrowingChain(c) && Midway(c, cursor0, offset, limit, k, rows, cursor)
    requires 1 <= k <= MAX_NAME_SCAN_PAGES
    requires k == MAX_NAME_SCAN_PAGES || |cursor| == 0 || |rows| >= limit
    ensures var (total, exact) :=
              ListingTotal(MaxCount(c, k), offset, |rows|, |cursor| > 0, |cursor0| > 0, PeekAt(c, k));
            ListingIsRight(c, cursor0, offset, limit, k, Listing(rows, total, !exact, EncodeCursor(cursor)))
  {
    hide Part, GrowsInto, TableAt, GrowingChain, WellFormed, CursorBytes, NextKeyAt, StartOf, RowsFrom,
         ListingTotal, MaxCount, PeekAt, AreRows, NamesRow;
    var t, start := LastTable(c, k), StartOf(TableAt(c, 0), cursor0, offset);
    ChainFacts(c, k - 1, k - 1);
    CursorTellsEnd(t, start + |rows|, cursor);
    FetchesEnd(t, start, limit, PageRows(c.cap), k, rows);
    NextCursorFits(t, start + |rows|, EncodeCursor(cursor));
  }

  /** Positioned by a cursor or by an offset, at most limit rows are read in chained fetches. */
  method HandleListing(c: Chain, cursor0: Bytes, offset: nat, limit: nat)
    returns (r: Result<Listing, Failure>, fetches: nat)
    requires GrowingChain(c) && limit >= 1
    requires |cursor0| > 0 ==> offset == 0
    ensures 1 <= fetches <= MAX_NAME_SCAN_PAGES
    ensures r.Ok? <==> forall i: nat :: i < fetches ==> !FailsAt(c, i)
    ensures r.Err? ==> r.error == ChainError && FailsAt(c, fetches - 1)
    ensures r.Ok? ==> ListingIsRight(c, cursor0, offset, limit, fetches, r.value)
  {
    hide *;
    ScanLimits();
    var rows, chainTotal, hasMore, cursor := [], 0, true, cursor0;
    fetches := 0;
    MidwayStart(c, cursor0, offset, limit);
    MaxCountStep(c, 0);
    while fetches < MAX_NAME_SCAN_PAGES && hasMore && |rows| < limit
      invariant 0 <= fetches <= MAX_NAME_SCAN_PAGES
      invariant forall i: nat :: i < fetches ==> !FailsAt(c, i)
      invariant chainTotal == MaxCount(c, fetches)
      invariant Midway(c, cursor0, offset, limit, fetches, rows, cursor)
      invariant if fetches == 0 then hasMore && rows == [] else hasMore == (|cursor| > 0)
    {
      var req := ListingRequest(cursor, offset, limit - |rows|);
      ChainFacts(c, 0, 0);
      var resp := GetRegistries(c, fetches, req);
      if resp.Err? {
        fetches := fetches + 1;
        return Err(ChainError), fetches;
      }
      MidwayStep(c, cursor0, offset, limit, fetches, rows, cursor, resp.value);
      rows := rows + resp.value.rows;
      MaxCountStep(c, fetches);
      chainTotal := Max(chainTotal, CountAt(c, fetches));
      cursor := CursorBytes(resp.value.nextKey).value;
      hasMore := |cursor| > 0;
      fetches := fetches + 1;
    }
    MidwayEnd(c, cursor0, offset, limit, fetches, rows, cursor);
    var (total, exact) := ListingTotal(chainTotal, offset, |rows|, hasMore, |cursor0| > 0, PeekAt(c, fetches));
    r := Ok(Listing(rows, total, !exact, EncodeCursor(cursor)));
  }

  /** Table size, table end and dense IDs decide what the total is worth on a table that stands still. */
  lemma ListingTotalIsSound(t: Table, start: nat, rows: nat, chainTotal: nat, offset: nat, fromCursor: bool, peek: Peek)
    requires WellFormed(t) && start + rows <= |t|
    requires if fromCursor then offset == 0 else start == Min(offset, |t|)
    requires chainTotal == 0 || chainTotal == |t|
    requires peek != PeekFailed ==> peek == if t == [] then NoRows else LastID(t[|t| - 1].id)
    ensures var (total, exact) := ListingTotal(chainTotal, offset, rows, start + rows < |t|, fromCursor, peek);
            && (exact ==> total >= |t|)
            && (exact ==> (total == |t| <==>
                             || chainTotal > 0
                             || Dense(t)
                             || (!fromCursor && start + rows == |t| && (rows > 0 || offset == 0))))
            && (!exact ==> (total <= |t| <==> fromCursor || rows > 0 || offset <= |t|))
  {
    if t != [] {
      LastIDBoundsSize(t);
    }
  }

  // ---------- following the cursor ----------

  /** Where a caller's key leads, if the key is accepted. */
  function PositionOf(t: Table, key: string): Option<nat> {
    match ListingCursor(key, 0)
    case Ok(cursor) => Some(StartOf(t, cursor, 0))
    case Err(_) => None
  }

  lemma KeyLeadsOn(t: Table, p: nat)
    requires WellFormed(t) && p < |t|
    ensures NextKeyAt(t, p) != "" && PositionOf(t, NextKeyAt(t, p)) == Some(p)
  {
    HandedOutCursorIsAccepted(t[p].id);
    NextCursorFits(t, p, NextKeyAt(t, p));
    CursorFindsRowLater(t, t, p, IDBytes(t[p].id));
  }

  /** The rows one listing returns on a table that stands still. */
  function OnePage(t: Table, cap: nat, limit: nat, start: nat): (rows: seq<Registry>)
    requires start <= |t|
    ensures start + |rows| <= |t| && rows == Part(t, start, start + |rows|)
    ensures start < |t| && cap >= 1 && limit >= 1 ==> |rows| >= 1
  {
    FewerPages(1, MAX_NAME_SCAN_PAGES, PageRows(cap));
    OneMorePage(0, PageRows(cap));
    RowsFrom(t, start, Min(limit, Pages(MAX_NAME_SCAN_PAGES, PageRows(cap))))
  }

  ghost predicate FixedChain(c: Chain, t: Table) {
    forall i: nat :: TableAt(c, i) == t && (CountAt(c, i) == 0 || CountAt(c, i) == |t|)
  }

  lemma {:induction false} FixedCount(c: Chain, t: Table, calls: nat)
    requires FixedChain(c, t)
    ensures MaxCount(c, calls) == 0 || MaxCount(c, calls) == |t|
  {
    if calls > 0 {
      FixedCount(c, t, calls - 1);
    }
  }

  /** On a table that stands still: the rows, the cursor and the worth of the total. */
  lemma FixedTableListing(
    c: Chain, t: Table, cursor0: Bytes, offset: nat, limit: nat, fetches: nat, l: Listing)
    requires GrowingChain(c) && FixedChain(c, t) && limit >= 1 && fetches >= 1
    requires |cursor0| > 0 ==> offset == 0
    requires ListingIsRight(c, cursor0, offset, limit, fetches, l)
    ensures var start := StartOf(t, cursor0, offset);
            && start + |l.rows| <= |t|
            && l.rows == OnePage(t, c.cap, limit, start)
            && l.nextKey == NextKeyAt(t, start + |l.rows|)
            && (c.cap == 200 ==> |l.rows| == Min(limit, Min(10000, |t| - start)))
            && (!l.lowerBound ==> l.total >= |t|)
            && (!l.lowerBound && Dense(t) ==> l.total == |t|)
            && (!l.lowerBound && |cursor0| == 0 && l.nextKey == "" && (|l.rows| > 0 || offset == 0) ==>
                  l.total == |t|)
            && (l.lowerBound ==> (l.total <= |t| <==> |cursor0| > 0 || |l.rows| > 0 || offset <= |t|))
  {
    var start := StartOf(t, cursor0, offset);
    hide Part, WellFormed, Dense, StartOf, NextKeyAt, GrowsInto, CursorOf;
    ChainFacts(c, fetches, fetches);
    StartOfOffset(t, cursor0, offset);
    FixedCount(c, t, fetches);
    ListingTotalIsSound(t, start, |l.rows|, MaxCount(c, fetches), offset, |cursor0| > 0, PeekAt(c, fetches));
  }

  lemma StartOfOffset(t: Table, cursor: Bytes, offset: nat)
    ensures StartOf(t, cursor, offset) <= |t|
    ensures |cursor| == 0 ==> StartOf(t, cursor, offset) == Min(offset, |t|)
  {
  }

  /** A caller that asks for limits(0), limits(1), ... rows and passes back each next_key. */
  ghost function Follow(t: Table, cap: nat, limits: nat -> nat, page: nat, start: nat): seq<Registry>
    requires WellFormed(t) && start <= |t| && cap >= 1
    requires forall i: nat :: limits(i) >= 1
    decreases |t| - start
  {
    var rows := OnePage(t, cap, limits(page), start);
    var next := start + |rows|;
    if next >= |t| then rows
    else
      KeyLeadsOn(t, next);
      rows + Follow(t, cap, limits, page + 1, PositionOf(t, NextKeyAt(t, next)).value)
  }

  /** From any position it sees every row once, in order, and comes to an end. */
  lemma {:induction false} FollowVisitsAll(t: Table, cap: nat, limits: nat -> nat, page: nat, start: nat)
    requires WellFormed(t) && start <= |t| && cap >= 1
    requires forall i: nat :: limits(i) >= 1
    ensures Follow(t, cap, limits, page, start) == Part(t, start, |t|)
    decreases |t| - start
  {
    hide OnePage, Pages, PositionOf, NextKeyAt, WellFormed, Part;
    var rows := OnePage(t, cap, limits(page), start);
    var next := start + |rows|;
    PartsJoin(t, start, next, |t|);
    if next < |t| {
      KeyLeadsOn(t, next);
      FollowVisitsAll(t, cap, limits, page + 1, next);
    }
  }

  // ---------- following the cursor while the table grows ----------

  /** The chain as it is met from call k on. */
  function From(c: Chain, k: nat): Chain {
    Chain((i: nat) => TableAt(c, i + k), (i: nat) => FailsAt(c, i + k), (i: nat) => CountAt(c, i + k), c.cap)
  }

  lemma FromGrows(c: Chain, k: nat, i: nat)
    requires GrowingChain(c)
    ensures GrowingChain(From(c, k)) && TableAt(From(c, k), i) == TableAt(c, i + k)
  {
    hide WellFormed, GrowsInto;
    forall i: nat, j: nat | i <= j
      ensures WellFormed(TableAt(From(c, k), i)) && GrowsInto(TableAt(From(c, k), i), TableAt(From(c, k), j))
    {
      ChainFacts(c, i + k, j + k);
    }
  }

  /** One listing of a caller: the chain call it begins with, its limit, its fetches and what it gave. */
  datatype Visit = Visit(call: nat, limit: nat, fetches: nat, listing: Listing)

  /** The table its last fetch met. */
  function SeenBy(c: Chain, v: Visit): Table
    requires v.fetches >= 1
  {
    TableAt(c, v.call + v.fetches - 1)
  }

  ghost predicate GoodVisit(c: Chain, v: Visit, key: string) {
    && v.limit >= 1 && v.fetches >= 1
    && ListingCursor(key, 0).Ok?
    && ListingIsRight(From(c, v.call), ListingCursor(key, 0).value, 0, v.limit, v.fetches, v.listing)
  }

  /** A caller that passes each next_key back, later on, for as long as there is one. */
  ghost predicate Followed(c: Chain, visits: seq<Visit>, key: string)
    decreases |visits|
  {
    |visits| > 0 ==>
      && GoodVisit(c, visits[0], key)
      && (|visits| > 1 ==>
            visits[0].listing.nextKey != "" && visits[1].call >= visits[0].call + visits[0].fetches)
      && Followed(c, visits[1..], visits[0].listing.nextKey)
  }

  function RowsSeen(visits: seq<Visit>): seq<Registry> {
    if |visits| == 0 then [] else visits[0].listing.rows + RowsSeen(visits[1..])
  }

  function FirstRow(c: Chain, v: Visit, key: string): (p: nat) {
    if ListingCursor(key, 0).Ok? then StartOf(TableAt(c, v.call), ListingCursor(key, 0).value, 0) else 0
  }

  lemma VisitRows(c: Chain, v: Visit, key: string)
    requires GrowingChain(c) && GoodVisit(c, v, key)
    ensures var t, start, rows := SeenBy(c, v), FirstRow(c, v, key), v.listing.rows;
            && start + |rows| <= |t| && rows == Part(t, start, start + |rows|)
            && NamesRow(t, start + |rows|, v.listing.nextKey)
            && (v.listing.nextKey == "" <==> start + |rows| == |t|)
  {
    hide Part, StartOf, NextKeyAt, ListingCursor, ListingTotal, MaxCount, PeekAt, Pages, WellFormed, GrowsInto, TableAt;
    FromGrows(c, v.call, 0);
    FromGrows(c, v.call, v.fetches - 1);
  }

  lemma NextVisitStarts(c: Chain, v: Visit, next: Visit, p: nat)
    requires GrowingChain(c) && v.fetches >= 1 && next.call >= v.call + v.fetches
    requires NamesRow(SeenBy(c, v), p, v.listing.nextKey) && p < |SeenBy(c, v)|
    ensures FirstRow(c, next, v.listing.nextKey) == p
  {
    hide StartOf, WellFormed, GrowsInto, TableAt;
    var t, later := SeenBy(c, v), TableAt(c, next.call);
    ChainFacts(c, v.call + v.fetches - 1, next.call);
    WellFormedID(t, p);
    HandedOutCursorIsAccepted(t[p].id);
    CursorFindsRowLater(t, later, p, IDBytes(t[p].id));
  }

  lemma WellFormedID(t: Table, p: nat)
    requires WellFormed(t) && p < |t|
    ensures t[p].id < UINT64_SPAN
  {
  }

  /** Over a growing table, with any limits and any delays, the rows of all listings are one contiguous run
      of the table the last one met: no row twice, none left out; and no key is handed out exactly when
      that table ended. */
  lemma {:induction false} FollowedIsContiguous(c: Chain, visits: seq<Visit>, key: string)
    requires GrowingChain(c) && |visits| > 0 && Followed(c, visits, key)
    ensures visits[|visits| - 1].fetches >= 1
    ensures var t, start := SeenBy(c, visits[|visits| - 1]), FirstRow(c, visits[0], key);
            var rows := RowsSeen(visits);
            && start + |rows| <= |t| && rows == Part(t, start, start + |rows|)
            && (visits[|visits| - 1].listing.nextKey == "" <==> start + |rows| == |t|)
            && forall i, j :: 0 <= i < j < |rows| ==> rows[i].id < rows[j].id
    ensures SeenBy(c, visits[0]) <= SeenBy(c, visits[|visits| - 1])
    decreases |visits|
  {
    hide Part, FirstRow, NextKeyAt, GrowingChain, WellFormed, TableAt, StartOf, ListingIsRight, GrowsInto, ListingCursor;
    var v, rest := visits[0], visits[1..];
    VisitRows(c, v, key);
    var start := FirstRow(c, v, key);
    var p := start + |v.listing.rows|;
    if |rest| == 0 {
      assert RowsSeen(visits) == v.listing.rows by { OneVisit(visits); }
      ChainFacts(c, v.call + v.fetches - 1, v.call + v.fetches - 1);
      PartIncreases(SeenBy(c, v), start, p);
    } else {
      assert rest[|rest| - 1] == visits[|visits| - 1] && rest[0] == visits[1];
      FollowedIsContiguous(c, rest, v.listing.nextKey);
      NextVisitStarts(c, v, rest[0], p);
      var t, last := SeenBy(c, v), SeenBy(c, visits[|visits| - 1]);
      ChainFacts(c, v.call + v.fetches - 1, rest[0].call + rest[0].fetches - 1);
      GrowsOn(t, SeenBy(c, rest[0]), last);
      PartStays(t, last, start, p);
      PartsJoin(last, start, p, p + |RowsSeen(rest)|);
      var k := visits[|visits| - 1].call + visits[|visits| - 1].fetches - 1;
      ChainFacts(c, k, k);
      PartIncreases(last, start, p + |RowsSeen(rest)|);
    }
  }

  lemma OneVisit(visits: seq<Visit>)
    requires |visits| == 1
    ensures RowsSeen(visits) == visits[0].listing.rows
  {
    assert RowsSeen(visits[1..]) == [];
  }

  lemma GrowsOn(a: Table, b: Table, c: Table)
    requires GrowsInto(a, b) && b <= c
    ensures GrowsInto(a, c) && a <= c
  {
  }

  lemma PartIncreases(t: Table, a: nat, b: nat)
    requires WellFormed(t) && a <= b <= |t|
    ensures forall i, j :: 0 <= i < j < |Part(t, a, b)| ==> Part(t, a, b)[i].id < Part(t, a, b)[j].id
  {
  }

  // ---------- the scan by name ----------

  function Matching(t: Table, matches: string -> bool): seq<Registry> {
    if t == [] then []
    else Matching(t[..|t| - 1], matches) + if matches(t[|t| - 1].name) then [t[|t| - 1]] else []
  }

  lemma {:induction false} MatchingAppend(s: Table, t: Table, matches: string -> bool)
    ensures Matching(s + t, matches) == Matching(s, matches) + Matching(t, matches)
    decreases |t|
  {
    if t == [] {
      assert s + t == s;
    } else {
      assert (s + t)[..|s + t| - 1] == s + t[..|t| - 1];
      MatchingAppend(s, t[..|t| - 1], matches);
    }
  }

  lemma {:induction false} MatchingHas(t: Table, matches: string -> bool, row: Registry)
    ensures row in Matching(t, matches) <==> row in t && matches(row.name)
  {
    if t != [] {
      MatchingHas(t[..|t| - 1], matches, row);
      assert t == t[..|t| - 1] + [t[|t| - 1]];
    }
  }

  /** The matches are exactly the rows whose name matches, each once, in the order of the table. */
  lemma {:induction false} MatchingIsFilter(t: Table, matches: string -> bool)
    requires WellFormed(t)
    ensures forall row :: row in Matching(t, matches) <==> row in t && matches(row.name)
    ensures forall i, j :: 0 <= i < j < |Matching(t, matches)| ==> Matching(t, matches)[i].id < Matching(t, matches)[j].id
  {
    forall row {
      MatchingHas(t, matches, row);
    }
    if t != [] {
      var init := t[..|t| - 1];
      MatchingIsFilter(init, matches);
      forall i | 0 <= i < |Matching(init, matches)|
        ensures Matching(init, matches)[i].id < t[|t| - 1].id
      {
        assert Matching(init, matches)[i] in Matching(init, matches);
        var k :| 0 <= k < |init| && init[k] == Matching(init, matches)[i];
        assert t[k].id < t[|t| - 1].id;
      }
    }
  }

  datatype Scan = Scan(matches: seq<Registry>, truncated: bool)

  /** The rows a full walk reaches: fifty pages of them at most. */
  function Reach(c: Chain): nat {
    Pages(MAX_NAME_SCAN_PAGES, PageRows(c.cap))
  }

  lemma ReachIsFiftyPages(c: Chain)
    ensures Reach(c) == 50 * (if c.cap < 200 then c.cap else 200)
  {
  }

  method KeepMatches(rows: seq<Registry>, matches: string -> bool) returns (kept: seq<Registry>)
    ensures kept == Matching(rows, matches)
  {
    kept := [];
    for i := 0 to |rows|
      invariant kept == Matching(rows[..i], matches)
    {
      assert rows[..i + 1][..i] == rows[..i];
      if matches(rows[i].name) {
        kept := kept + [rows[i]];
      }
    }
    assert rows[..|rows|] == rows;
  }

  ghost predicate FoundAll(t: Table, scanned: nat, matches: string -> bool, found: seq<Registry>) {
    scanned <= |t| && found == Matching(Part(t, 0, scanned), matches)
  }

  function WalkRequest(cursor: Bytes): (req: PageRequest)
    ensures req.limit >= 1
  {
    PageRequest(cursor, 0, NAME_SCAN_PAGE_SIZE)
  }

  /** The walk after k pages: it has scanned that many whole pages, or the table ended. */
  ghost predicate Walked(c: Chain, matches: string -> bool, k: nat, found: seq<Registry>, scanned: nat,
                         cursor: Bytes)
  {
    var t := TableAt(c, k);
    && scanned <= |t| && scanned <= Pages(k, PageRows(c.cap))
    && FoundAll(t, scanned, matches, found)
    && (k > 0 && scanned < |t| ==> scanned == Pages(k, PageRows(c.cap)))
    && if k == 0 then |cursor| == 0 else CursorAt(t, scanned, cursor)
  }

  lemma ScanGoesOn(t: Table, later: Table, scanned: nat, most: nat, matches: string -> bool,
                   found: seq<Registry>, rows: seq<Registry>)
    requires GrowsInto(t, later) && FoundAll(t, scanned, matches, found) && AreRows(later, scanned, most, rows)
    ensures FoundAll(later, scanned + |rows|, matches, found + Matching(rows, matches))
  {
    hide Part, Matching, GrowsInto;
    PartStays(t, later, 0, scanned);
    PartsJoin(later, 0, scanned, scanned + |rows|);
    MatchingAppend(Part(later, 0, scanned), rows, matches);
  }

  lemma WalkStep(c: Chain, matches: string -> bool, k: nat, found: seq<Registry>, scanned: nat,
                 cursor: Bytes, resp: PageResponse)
    requires GrowingChain(c) && Walked(c, matches, k, found, scanned, cursor) && (k == 0 || |cursor| > 0)
    requires resp == Serve(TableAt(c, k + 1), c.cap, WalkRequest(cursor))
    ensures CursorBytes(resp.nextKey).Some?
    ensures Walked(c, matches, k + 1, found + Matching(resp.rows, matches), scanned + |resp.rows|,
                   CursorBytes(resp.nextKey).value)
  {
    hide Part, GrowsInto, TableAt, GrowingChain, WellFormed, CursorAt, CursorBytes, NextKeyAt, StartOf, Serve,
         Matching, AreRows, FoundAll, NamesRow, Pages;
    var t, later := TableAt(c, k), TableAt(c, k + 1);
    ChainFacts(c, k, k + 1);
    if k > 0 {
      CursorTellsEnd(t, scanned, cursor);
      CursorFindsRowLater(t, later, scanned, cursor);
    }
    OneMorePage(k, PageRows(c.cap));
    NoCursorIsStart(later, cursor);
    ServedFrom(later, c.cap, WalkRequest(cursor), scanned, resp);
    ScanGoesOn(t, later, scanned, PageRows(c.cap), matches, found, resp.rows);
    NextCursorFits(later, scanned + |resp.rows|, resp.nextKey);
  }

  /** The matches of the part of the table within reach, flagged when the table goes on beyond it or
      has fewer rows than the last ID seen beforehand. */
  ghost predicate ScanIsRight(c: Chain, matches: string -> bool, pages: nat, scan: Scan) {
    var t := TableAt(c, pages);
    && FoundAll(t, Min(Reach(c), |t|), matches, scan.matches)
    && (scan.truncated <==> |t| > Reach(c) || (PeekAt(c, 0).LastID? && |t| < PeekAt(c, 0).id))
  }

  lemma WalkEnd(c: Chain, matches: string -> bool, k: nat, found: seq<Registry>, scanned: nat,
                cursor: Bytes)
    requires GrowingChain(c) && Walked(c, matches, k, found, scanned, cursor)
    requires 1 <= k <= MAX_NAME_SCAN_PAGES && (k == MAX_NAME_SCAN_PAGES || |cursor| == 0)
    ensures var peek := PeekAt(c, 0);
            ScanIsRight(c, matches, k, Scan(found, |cursor| > 0 || (peek.LastID? && scanned < peek.id)))
  {
    hide Part, GrowsInto, TableAt, GrowingChain, WellFormed, CursorAt, Matching, FoundAll, Pages;
    CursorTellsEnd(TableAt(c, k), scanned, cursor);
    FewerPages(k, MAX_NAME_SCAN_PAGES, PageRows(c.cap));
  }

  lemma EmptyScan(c: Chain, matches: string -> bool)
    ensures Walked(c, matches, 0, [], 0, [])
    ensures PeekAt(c, 0).NoRows? ==> ScanIsRight(c, matches, 0, Scan([], false))
  {
  }

  /** Call 0 peeks at the last ID, the others walk the table from its start by cursor. */
  method ScanByName(c: Chain, matches: string -> bool) returns (r: Result<Scan, Failure>, calls: nat)
    requires GrowingChain(c)
    ensures 1 <= calls <= MAX_NAME_SCAN_PAGES + 1
    ensures r.Ok? <==> forall i: nat :: 1 <= i < calls ==> !FailsAt(c, i)
    ensures r.Ok? ==> ScanIsRight(c, matches, calls - 1, r.value)
  {
    hide *;
    ScanLimits();
    ChainFacts(c, 0, 0);
    EmptyScan(c, matches);
    var peek := PeekAt(c, 0);
    calls := 1;
    if peek.NoRows? {
      return Ok(Scan([], false)), calls;
    }
    var found, scanned: nat, cursor := [], 0, [];
    while calls <= MAX_NAME_SCAN_PAGES
      invariant 1 <= calls <= MAX_NAME_SCAN_PAGES + 1
      invariant forall i: nat :: 1 <= i < calls ==> !FailsAt(c, i)
      invariant Walked(c, matches, calls - 1, found, scanned, cursor)
      invariant calls == 1 || |cursor| > 0
    {
      var resp := GetRegistries(c, calls, WalkRequest(cursor));
      if resp.Err? {
        calls := calls + 1;
        return Err(ChainError), calls;
      }
      WalkStep(c, matches, calls - 1, found, scanned, cursor, resp.value);
      var kept := KeepMatches(resp.value.rows, matches);
      found, scanned := found + kept, scanned + |resp.value.rows|;
      cursor := CursorBytes(resp.value.nextKey).value;
      calls := calls + 1;
      if |cursor| == 0 {
        WalkEnd(c, matches, calls - 1, found, scanned, cursor);
        return Ok(Scan(found, peek.LastID? && scanned < peek.id)), calls;
      }
    }
    WalkEnd(c, matches, calls - 1, found, scanned, cursor);
    r := Ok(Scan(found, true));
  }

  /** A scan that does not call itself truncated holds every match of the table it ended on. */
  lemma UntruncatedIsComplete(c: Chain, matches: string -> bool, pages: nat, scan: Scan)
    requires ScanIsRight(c, matches, pages, scan)
    ensures !scan.truncated ==> scan.matches == Matching(TableAt(c, pages), matches)
  {
    var t := TableAt(c, pages);
    assert Part(t, 0, |t|) == t;
  }

  /** While the IDs are dense at the peek, a scan is flagged exactly when the table has grown beyond what
      fifty pages reach. Growth within that reach never raises the flag. */
  lemma DenseScanFlaggedIff(c: Chain, matches: string -> bool, pages: nat, scan: Scan)
    requires GrowingChain(c) && ScanIsRight(c, matches, pages, scan) && Dense(TableAt(c, 0))
    ensures scan.truncated <==> |TableAt(c, pages)| > Reach(c)
  {
    hide FoundAll, Reach;
    ChainFacts(c, 0, pages);
    if TableAt(c, 0) != [] {
      LastIDBoundsSize(TableAt(c, 0));
    }
  }

  /** With gaps in the IDs the flag is raised as well while the table has fewer rows than the last ID
      seen at the peek, so every scan of a table that has not grown is flagged. */
  lemma GapsFlagScan(c: Chain, matches: string -> bool, pages: nat, scan: Scan)
    requires GrowingChain(c) && ScanIsRight(c, matches, pages, scan)
    requires TableAt(c, 0) != [] && !Dense(TableAt(c, 0)) && !FailsAt(c, 0) && TableAt(c, pages) == TableAt(c, 0)
    ensures scan.truncated
  {
    ChainFacts(c, 0, pages);
    LastIDBoundsSize(TableAt(c, 0));
  }

  // ---------- the window on the matches ----------

  /** The end of the window is computed in 64 bits and may wrap around. */
  function PageOfMatches(matches: seq<Registry>, offset: nat, limit: nat): seq<Registry>
    requires |matches| < UINT64_SPAN && offset < UINT64_SPAN && limit < UINT64_SPAN
  {
    if offset >= |matches| then []
    else
      var sum := (offset + limit) % UINT64_SPAN;
      var end := if sum < offset || sum > |matches| then |matches| else sum;
      matches[offset..end]
  }

  lemma WindowIsSlice(matches: seq<Registry>, offset: nat, limit: nat)
    requires |matches| < UINT64_SPAN && offset < UINT64_SPAN && limit < UINT64_SPAN
    ensures var n := |matches|;
            PageOfMatches(matches, offset, limit) == matches[Min(offset, n)..Min(offset + limit, n)]
  {
  }

  function Windows(matches: seq<Registry>, offset: nat, limit: nat): seq<Registry>
    requires |matches| < UINT64_SPAN && 1 <= limit < UINT64_SPAN
    decreases |matches| - offset
  {
    if offset >= |matches| then []
    else PageOfMatches(matches, offset, limit) + Windows(matches, offset + limit, limit)
  }

  /** The pages at offsets 0, L, 2L, ... are the whole list. */
  lemma {:induction false} WindowsTile(matches: seq<Registry>, offset: nat, limit: nat)
    requires |matches| < UINT64_SPAN && 1 <= limit < UINT64_SPAN && offset <= |matches|
    ensures Windows(matches, offset, limit) == matches[offset..]
    decreases |matches| - offset
  {
    hide PageOfMatches;
    if offset < |matches| {
      var end := Min(offset + limit, |matches|);
      WindowIsSlice(matches, offset, limit);
      assert matches[offset..] == matches[offset..end] + matches[end..];
      if offset + limit <= |matches| {
        WindowsTile(matches, end, limit);
      }
    }
  }
}
