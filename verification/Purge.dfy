/** The retention part of internal/config/config.go. Windows are in nanoseconds, zero for none; loading
    rejects negative ones. */
module Retention {
  import opened Outcomes

  datatype RetentionConfig = RetentionConfig(
    writeAudit: nat, writeAuditGrantRole: nat, signerQuota: nat, signerBlacklist: nat, adminAudit: nat,
    purgeInterval: int)

  datatype RetentionError = IntervalInvalid | GrantRoleShorter

  predicate Enabled(r: RetentionConfig) {
    r.writeAudit > 0 || r.writeAuditGrantRole > 0 || r.signerQuota > 0 || r.signerBlacklist > 0 || r.adminAudit > 0
  }

  function Validate(r: RetentionConfig): Option<RetentionError> {
    if !Enabled(r) then None
    else if r.purgeInterval <= 0 then Some(IntervalInvalid)
    else if r.writeAuditGrantRole > 0 && (r.writeAudit == 0 || r.writeAuditGrantRole < r.writeAudit)
    then Some(GrantRoleShorter)
    else None
  }
}

/** internal/mcp/purge.go: deleting rows past their window, in batches. A table is a map from row IDs. */
module Purge {
  import opened Outcomes
  import opened Retention
  import SignerQuota
  import WriteAudit

  const BATCH := 5000
  const BATCHES := 200
  const CEILING := 1_000_000

  /** The time a row ages by, and its method selector; only write_audit rows have one. */
  datatype Row = Row(at: Instant, selector: string)

  type Rows = map<nat, Row>

  datatype Filter = Every | Only(selector: string) | Except(selector: string)

  datatype Statement = Statement(cutoff: Instant, filter: Filter)

  predicate Selects(s: Statement, row: Row) {
    && row.at < s.cutoff
    && match s.filter
       case Every => true
       case Only(selector) => row.selector == selector
       case Except(selector) => row.selector != selector
  }

  function Expired(rows: Rows, s: Statement): set<nat> {
    set id | id in rows && Selects(s, rows[id])
  }

  /** Exactly the rows of gone are gone. */
  predicate Without(before: Rows, after: Rows, gone: set<nat>) {
    gone <= before.Keys && after == before - gone
  }

  lemma NothingGone(rows: Rows, s: Statement)
    ensures Without(rows, rows, {}) && {} <= Expired(rows, s)
  {
  }

  lemma ExpiredWithout(before: Rows, after: Rows, gone: set<nat>, s: Statement)
    requires Without(before, after, gone)
    ensures Expired(after, s) == Expired(before, s) - gone
  {
  }

  // ---------- one delete statement ----------

  datatype PurgeError = QueryFailed | Canceled

  /** The batch whose statement fails, and the batch after which the context is canceled. */
  datatype Weather = Weather(failsAt: Option<nat>, canceledAt: Option<nat>)

  /** How a statement run in batches ends: the context is looked at after each full batch. */
  function SweepError(expired: nat, w: Weather): Option<PurgeError> {
    var full := Min(expired / BATCH, BATCHES);
    var last := Min(expired / BATCH, BATCHES - 1);
    if w.failsAt.Some? && w.failsAt.value <= last && (w.canceledAt.None? || w.failsAt.value <= w.canceledAt.value)
    then Some(QueryFailed)
    else if w.canceledAt.Some? && w.canceledAt.value < full then Some(Canceled)
    else None
  }

  /** How many rows it deletes: everything or a ceiling, or the batches finished before it ended. */
  function SweepTotal(expired: nat, w: Weather): nat {
    match SweepError(expired, w)
    case None => Min(expired, CEILING)
    case Some(QueryFailed) => w.failsAt.value * BATCH
    case Some(Canceled) => (w.canceledAt.value + 1) * BATCH
  }

  /** A statement that ends in an error has deleted something unless its first batch failed. */
  lemma FailedSweepTotal(expired: nat, w: Weather)
    ensures SweepError(expired, w).Some? ==> (SweepTotal(expired, w) > 0 <==> w.failsAt != Some(0))
    ensures SweepError(expired, w).None? ==> SweepTotal(expired, w) == Min(expired, CEILING)
    ensures SweepTotal(expired, w) <= expired
  {
  }

  /** The same in numbers: batches of 5000, 200 of them at most. A failing statement is reached when the
      batches before it are full and the context is not canceled before; it leaves those batches deleted. A
      cancelation is noticed after a full batch. */
  lemma SweepInNumbers(expired: nat, w: Weather)
    ensures SweepError(expired, w) == Some(QueryFailed) <==>
              w.failsAt.Some? && w.failsAt.value < 200 && w.failsAt.value * 5000 <= expired
              && (w.canceledAt.None? || w.failsAt.value <= w.canceledAt.value)
    ensures SweepError(expired, w) == Some(Canceled) <==>
              w.canceledAt.Some? && w.canceledAt.value < 200 && (w.canceledAt.value + 1) * 5000 <= expired
              && (w.failsAt.None? || w.canceledAt.value < w.failsAt.value)
    ensures SweepError(expired, w) == None ==> SweepTotal(expired, w) == if expired < 1_000_000 then expired else 1_000_000
    ensures SweepError(expired, w) == Some(QueryFailed) ==> SweepTotal(expired, w) == w.failsAt.value * 5000
    ensures SweepError(expired, w) == Some(Canceled) ==> SweepTotal(expired, w) == (w.canceledAt.value + 1) * 5000
  {
  }

  class Table {
    var rows: Rows

    constructor (rows: Rows)
      ensures this.rows == rows
    {
      this.rows := rows;
    }

    /** Deletes some limit of the selected rows, whichever the database picks. */
    method Exec(s: Statement, limit: nat) returns (n: nat, ghost gone: set<nat>)
      modifies this
      ensures gone <= Expired(old(rows), s) && Without(old(rows), rows, gone)
      ensures n == |gone| == Min(limit, |Expired(old(rows), s)|)
    {
      var left := Expired(rows, s);
      n, gone := 0, {};
      while n < limit && left != {}
        invariant n <= limit && n == |gone|
        invariant left == Expired(old(rows), s) - gone && gone <= Expired(old(rows), s)
        invariant Without(old(rows), rows, gone)
        decreases |left|
      {
        var id :| id in left;
        left := left - {id};
        rows := rows - {id};
        gone := gone + {id};
        n := n + 1;
      }
      SubsetSize(gone, Expired(old(rows), s));
    }
  }

  /** What a statement run in batches did: so many of the selected rows went, and no other. */
  ghost predicate Swept(before: Rows, after: Rows, s: Statement, gone: set<nat>, total: nat) {
    Without(before, after, gone) && gone <= Expired(before, s) && total == |gone|
  }

  lemma SweepEnds(expired: nat, i: nat, w: Weather)
    requires i * BATCH <= expired && i <= BATCHES
    requires w.failsAt.Some? ==> i <= w.failsAt.value
    requires w.canceledAt.Some? ==> i <= w.canceledAt.value
    ensures i < BATCHES && w.failsAt == Some(i) ==> SweepError(expired, w) == Some(QueryFailed)
    ensures i < BATCHES && w.failsAt != Some(i) && expired < (i + 1) * BATCH ==> SweepError(expired, w) == None
    ensures i < BATCHES && w.failsAt != Some(i) && expired >= (i + 1) * BATCH && w.canceledAt == Some(i) ==>
              SweepError(expired, w) == Some(Canceled)
    ensures i == BATCHES ==> SweepError(expired, w) == None && SweepTotal(expired, w) == CEILING
    ensures i < BATCHES && w.failsAt == Some(i) ==> SweepTotal(expired, w) == i * BATCH
    ensures i < BATCHES && w.failsAt != Some(i) && expired < (i + 1) * BATCH ==> SweepTotal(expired, w) == expired
    ensures i < BATCHES && w.failsAt != Some(i) && expired >= (i + 1) * BATCH && w.canceledAt == Some(i) ==>
              SweepTotal(expired, w) == (i + 1) * BATCH
  {
  }

  lemma OneMoreBatch(before: Rows, middle: Rows, after: Rows, s: Statement, gone: set<nat>, batch: set<nat>)
    requires Without(before, middle, gone) && gone <= Expired(before, s)
    requires Without(middle, after, batch) && batch <= Expired(middle, s)
    ensures Without(before, after, gone + batch) && gone + batch <= Expired(before, s)
    ensures |gone + batch| == |gone| + |batch| <= |Expired(before, s)|
    ensures |Expired(middle, s)| == |Expired(before, s)| - |gone|
  {
    ExpiredWithout(before, middle, gone, s);
    DiffSize(Expired(before, s), gone);
    JoinSizes(gone, batch);
    SubsetSize(gone + batch, Expired(before, s));
  }

  method DeleteBatched(t: Table, s: Statement, w: Weather)
    returns (total: nat, err: Option<PurgeError>, ghost gone: set<nat>)
    modifies t
    ensures Swept(old(t.rows), t.rows, s, gone, total)
    ensures err == SweepError(|Expired(old(t.rows), s)|, w) && total == SweepTotal(|Expired(old(t.rows), s)|, w)
    ensures var n := |Expired(old(t.rows), s)|;
            && (err == Some(QueryFailed) <==>
                  w.failsAt.Some? && w.failsAt.value < 200 && w.failsAt.value * 5000 <= n
                  && (w.canceledAt.None? || w.failsAt.value <= w.canceledAt.value))
            && (err == Some(Canceled) <==>
                  w.canceledAt.Some? && w.canceledAt.value < 200 && (w.canceledAt.value + 1) * 5000 <= n
                  && (w.failsAt.None? || w.canceledAt.value < w.failsAt.value))
            && total == (if err == Some(QueryFailed) then w.failsAt.value * 5000
                         else if err == Some(Canceled) then (w.canceledAt.value + 1) * 5000
                         else if n < 1_000_000 then n else 1_000_000)
  {
    SweepInNumbers(|Expired(t.rows, s)|, w);
    hide Expired, Without, SweepError, SweepTotal;
    ghost var expired := |Expired(t.rows, s)|;
    total, gone := 0, {};
    NothingGone(t.rows, s);
    for i := 0 to BATCHES
      invariant Without(old(t.rows), t.rows, gone) && gone <= Expired(old(t.rows), s)
      invariant total == |gone| == i * BATCH <= expired
      invariant w.failsAt.Some? ==> i <= w.failsAt.value
      invariant w.canceledAt.Some? ==> i <= w.canceledAt.value
    {
      SweepEnds(expired, i, w);
      if w.failsAt == Some(i) {
        return total, Some(QueryFailed), gone;
      }
      ghost var before := t.rows;
      var n;
      ghost var batch;
      n, batch := t.Exec(s, BATCH);
      OneMoreBatch(old(t.rows), before, t.rows, s, gone, batch);
      gone := gone + batch;
      total := total + n;
      if n < BATCH {
        return total, None, gone;
      }
      if w.canceledAt == Some(i) {
        return total, Some(Canceled), gone;
      }
    }
    SweepEnds(expired, BATCHES, w);
    err := None;
  }

  lemma JoinSizes(a: set<nat>, b: set<nat>)
    ensures a !! b ==> |a + b| == |a| + |b|
  {
  }

  // ---------- sweep after sweep ----------

  ghost predicate SweptOnce(before: Rows, after: Rows, s: Statement) {
    exists gone :: Swept(before, after, s, gone, Min(|Expired(before, s)|, CEILING))
  }

  /** Tables between sweeps at one cutoff, with nothing inserted. */
  ghost predicate Sweeps(tables: seq<Rows>, s: Statement) {
    && |tables| > 0
    && forall k :: 0 <= k < |tables| - 1 ==> SweptOnce(tables[k], tables[k + 1], s)
  }

  function Unexpired(rows: Rows, s: Statement): Rows {
    rows - Expired(rows, s)
  }

  lemma SweepShrinks(before: Rows, after: Rows, s: Statement)
    requires SweptOnce(before, after, s)
    ensures |Expired(after, s)| == Max(0, |Expired(before, s)| - CEILING)
    ensures Unexpired(after, s) == Unexpired(before, s)
  {
    var gone :| Swept(before, after, s, gone, Min(|Expired(before, s)|, CEILING));
    ExpiredWithout(before, after, gone, s);
    DiffSize(Expired(before, s), gone);
    assert before - Expired(before, s) == (before - gone) - (Expired(before, s) - gone);
  }

  /** Every sweep takes a full ceiling off the backlog until it is gone, touches no other row, and leaves
      exactly the unexpired rows once the ceilings cover the backlog. */
  lemma {:induction false} SweepsDrain(tables: seq<Rows>, s: Statement)
    requires Sweeps(tables, s)
    ensures var last := tables[|tables| - 1];
            && |Expired(last, s)| == Max(0, |Expired(tables[0], s)| - (|tables| - 1) * CEILING)
            && Unexpired(last, s) == Unexpired(tables[0], s)
            && ((|tables| - 1) * CEILING >= |Expired(tables[0], s)| <==> last == Unexpired(tables[0], s))
    decreases |tables|
  {
    hide Expired, Unexpired, SweptOnce;
    var n := |tables| - 1;
    if n > 0 {
      var init := tables[..n];
      assert init[n - 1] == tables[n - 1];
      forall k | 0 <= k < |init| - 1
        ensures SweptOnce(init[k], init[k + 1], s)
      {
        assert init[k] == tables[k] && init[k + 1] == tables[k + 1];
      }
      SweepsDrain(init, s);
      assert SweptOnce(tables[n - 1], tables[n - 1 + 1], s);
      SweepShrinks(tables[n - 1], tables[n], s);
    }
    DrainedIff(tables[n], s);
  }

  lemma DrainedIff(rows: Rows, s: Statement)
    ensures |Expired(rows, s)| == 0 <==> rows == Unexpired(rows, s)
  {
    if |Expired(rows, s)| == 0 {
      assert Expired(rows, s) == {};
    } else {
      var id :| id in Expired(rows, s);
      assert id !in Unexpired(rows, s);
    }
  }

  // ---------- the two windows of write_audit ----------

  datatype PurgerError = NoPool

  /** A grantRole window without a known selector is refused, under the error of a missing pool. */
  function Refusal(hasPool: bool, cfg: RetentionConfig, grantRoleSelector: string): Option<PurgerError> {
    if !hasPool then Some(NoPool)
    else if cfg.writeAuditGrantRole > 0 && grantRoleSelector == "" then Some(NoPool)
    else None
  }

  predicate CarveOut(cfg: RetentionConfig, selector: string) {
    cfg.writeAuditGrantRole > 0 && selector != ""
  }

  function GrantStatement(cfg: RetentionConfig, selector: string, now: Instant): Statement {
    Statement(now - cfg.writeAuditGrantRole, Only(selector))
  }

  function OrdinaryStatement(cfg: RetentionConfig, selector: string, now: Instant): Statement {
    Statement(now - cfg.writeAudit, if CarveOut(cfg, selector) then Except(selector) else Every)
  }

  /** A write_audit row some statement of the sweep selects. */
  predicate MayGo(cfg: RetentionConfig, selector: string, now: Instant, row: Row) {
    || (CarveOut(cfg, selector) && Selects(GrantStatement(cfg, selector, now), row))
    || (cfg.writeAudit > 0 && Selects(OrdinaryStatement(cfg, selector, now), row))
  }

  /** The window a write_audit row is promised: its own for grantRole, none when unset. */
  predicate PastOwnWindow(cfg: RetentionConfig, selector: string, now: Instant, row: Row) {
    var window := if CarveOut(cfg, selector) && row.selector == selector then cfg.writeAuditGrantRole else cfg.writeAudit;
    window > 0 && now - row.at > window
  }

  /** The statements select a row exactly when it is past its own window. */
  lemma MayGoIffPastOwnWindow(cfg: RetentionConfig, selector: string, now: Instant, row: Row)
    ensures MayGo(cfg, selector, now, row) <==> PastOwnWindow(cfg, selector, now, row)
  {
  }

  /** Whether, at every age, a grantRole row outlives an ordinary row. */
  ghost predicate GrantRoleOutlives(cfg: RetentionConfig, selector: string) {
    forall now: Instant, at: Instant, other: string ::
      other != selector && PastOwnWindow(cfg, selector, now, Row(at, selector)) ==>
        PastOwnWindow(cfg, selector, now, Row(at, other))
  }

  /** The boot-time checks accept a configuration with a grantRole window exactly when it keeps grantRole
      rows at least as long as ordinary ones, the interval is positive and the selector known; any other one
      exactly when the interval is positive or there is no window at all. */
  lemma AcceptedIffOutlives(cfg: RetentionConfig, selector: string)
    ensures cfg.writeAuditGrantRole > 0 ==>
              (Validate(cfg).None? && Refusal(true, cfg, selector).None? <==>
               cfg.purgeInterval > 0 && selector != "" && GrantRoleOutlives(cfg, selector))
    ensures cfg.writeAuditGrantRole == 0 ==>
              (Validate(cfg).None? <==>
               cfg.purgeInterval > 0
               || cfg.writeAudit + cfg.signerQuota + cfg.signerBlacklist + cfg.adminAudit == 0)
              && Refusal(true, cfg, selector).None?
  {
    if cfg.writeAuditGrantRole > 0 && selector != "" && (cfg.writeAudit == 0 || cfg.writeAuditGrantRole < cfg.writeAudit) {
      var at: Instant := -1 - cfg.writeAuditGrantRole;
      assert PastOwnWindow(cfg, selector, 0, Row(at, selector));
      assert !PastOwnWindow(cfg, selector, 0, Row(at, ""));
    }
  }

  /** The backlogs of the statements of a sweep, as they are found; none for a statement that is not run. */
  datatype Backlogs = Backlogs(
    grantRole: Option<nat>, ordinary: Option<nat>, signerQuota: Option<nat>, signerBlacklist: Option<nat>,
    adminAudit: Option<nat>)

  function Backlog(runs: bool, rows: Rows, s: Statement): Option<nat> {
    if runs then Some(|Expired(rows, s)|) else None
  }

  function GrantBacklog(cfg: RetentionConfig, selector: string, now: Instant, rows: Rows): Option<nat> {
    Backlog(CarveOut(cfg, selector), rows, GrantStatement(cfg, selector, now))
  }

  function OrdinaryBacklog(cfg: RetentionConfig, selector: string, now: Instant, rows: Rows): Option<nat> {
    Backlog(cfg.writeAudit > 0, rows, OrdinaryStatement(cfg, selector, now))
  }

  function AgeBacklog(window: nat, now: Instant, rows: Rows): Option<nat> {
    Backlog(window > 0, rows, AgeStatement(window, now))
  }

  function ErrorOf(backlog: Option<nat>, w: Weather): Option<PurgeError> {
    if backlog.None? then None else SweepError(backlog.value, w)
  }

  function DeletedOf(backlog: Option<nat>, w: Weather): nat {
    if backlog.None? then 0 else SweepTotal(backlog.value, w)
  }

  /** The second statement is not reached when the first one fails. */
  function AuditDeleted(grantRole: Option<nat>, ordinary: Option<nat>, w: (Weather, Weather)): nat {
    DeletedOf(grantRole, w.0) + if ErrorOf(grantRole, w.0).Some? then 0 else DeletedOf(ordinary, w.1)
  }

  /** What a purge of write_audit did: only rows past their own window went, and how many. */
  ghost predicate AuditPurged(cfg: RetentionConfig, selector: string, now: Instant, before: Rows, after: Rows,
                              gone: set<nat>, w: (Weather, Weather)) {
    && Without(before, after, gone)
    && (forall id :: id in gone ==> PastOwnWindow(cfg, selector, now, before[id]))
    && |gone| == AuditDeleted(GrantBacklog(cfg, selector, now, before), OrdinaryBacklog(cfg, selector, now, before), w)
    && GrantRowsGone(cfg, selector, before, gone, DeletedOf(GrantBacklog(cfg, selector, now, before), w.0))
  }

  /** Those of some rows that carry a selector. */
  function WithSelector(rows: Rows, ids: set<nat>, selector: string): set<nat> {
    set id | id in ids && id in rows && rows[id].selector == selector
  }

  ghost predicate GrantRowsGone(cfg: RetentionConfig, selector: string, before: Rows, gone: set<nat>, n: nat) {
    CarveOut(cfg, selector) ==> |WithSelector(before, gone, selector)| == n
  }

  lemma GrantRowsAreGrantGone(cfg: RetentionConfig, selector: string, now: Instant, before: Rows, middle: Rows,
                              grantGone: set<nat>, ordinaryGone: set<nat>)
    requires grantGone <= Expired(before, GrantStatement(cfg, selector, now))
    requires Without(before, middle, grantGone) && ordinaryGone <= Expired(middle, OrdinaryStatement(cfg, selector, now))
    ensures GrantRowsGone(cfg, selector, before, grantGone + ordinaryGone, |grantGone|)
  {
    if CarveOut(cfg, selector) {
      assert WithSelector(before, grantGone + ordinaryGone, selector) == grantGone;
    }
  }

  /** Only rows past the window went, and how many. */
  ghost predicate AgePurged(window: nat, now: Instant, before: Rows, after: Rows, gone: set<nat>, w: Weather) {
    && Without(before, after, gone) && gone <= Expired(before, AgeStatement(window, now))
    && |gone| == DeletedOf(AgeBacklog(window, now, before), w)
  }

  /** Under a configuration that was accepted at boot and has a grantRole window: a sweep deletes a grantRole
      row only past that window, and every other row of its age is past its own window too. */
  lemma AcceptedSweepKeepsGrantRole(cfg: RetentionConfig, selector: string, now: Instant, before: Rows, after: Rows,
                                    gone: set<nat>, w: (Weather, Weather), id: nat, other: string)
    requires Validate(cfg).None? && Refusal(true, cfg, selector).None? && cfg.writeAuditGrantRole > 0
    requires AuditPurged(cfg, selector, now, before, after, gone, w)
    requires id in gone && before[id].selector == selector
    ensures now - before[id].at > cfg.writeAuditGrantRole
    ensures PastOwnWindow(cfg, selector, now, Row(before[id].at, other))
  {
    hide AuditDeleted;
  }

  /** A row recorded for calldata that calls grantRole is governed by the grantRole statement alone, and a
      row recorded for any other calldata by the ordinary one alone. */
  lemma RecordedRowIsClassified(cfg: RetentionConfig, id: Bytes, calldata: Bytes, now: Instant, at: Instant)
    requires |id| == 4 && cfg.writeAuditGrantRole > 0
    ensures var row := Row(at, WriteAudit.ToLower(WriteAudit.MethodSelectorOf(calldata)));
            var selector := WriteAudit.SelectorText(id);
            if |calldata| >= 4 && calldata[..4] == id then
              && (Selects(GrantStatement(cfg, selector, now), row) <==> now - at > cfg.writeAuditGrantRole)
              && !Selects(OrdinaryStatement(cfg, selector, now), row)
            else
              && !Selects(GrantStatement(cfg, selector, now), row)
              && (Selects(OrdinaryStatement(cfg, selector, now), row) <==> now - at > cfg.writeAudit)
  {
    WriteAudit.StoredSelectorIsSelector(calldata);
    WriteAudit.SelectorClassifies(calldata, id);
    assert WriteAudit.SelectorText(id) != "";
    hide WriteAudit.ToLower, WriteAudit.MethodSelectorOf, WriteAudit.SelectorText;
  }

  /** The two statements never select the same row, so the second finds what it would have found first. */
  lemma TwoWindows(cfg: RetentionConfig, selector: string, now: Instant, before: Rows, middle: Rows, after: Rows,
                   grantGone: set<nat>, ordinaryGone: set<nat>)
    requires Without(before, middle, grantGone) && Without(middle, after, ordinaryGone)
    requires grantGone <= Expired(before, GrantStatement(cfg, selector, now))
    requires grantGone == {} || CarveOut(cfg, selector)
    requires ordinaryGone <= Expired(middle, OrdinaryStatement(cfg, selector, now))
    requires ordinaryGone == {} || cfg.writeAudit > 0
    ensures var gone := grantGone + ordinaryGone;
            && Without(before, after, gone) && |gone| == |grantGone| + |ordinaryGone|
            && (forall id :: id in gone ==> PastOwnWindow(cfg, selector, now, before[id]))
    ensures Expired(middle, OrdinaryStatement(cfg, selector, now)) == Expired(before, OrdinaryStatement(cfg, selector, now))
  {
    ExpiredWithout(before, middle, grantGone, OrdinaryStatement(cfg, selector, now));
    assert grantGone !! Expired(before, OrdinaryStatement(cfg, selector, now));
    JoinSizes(grantGone, ordinaryGone);
    forall id | id in grantGone + ordinaryGone
      ensures PastOwnWindow(cfg, selector, now, before[id])
    {
      MayGoIffPastOwnWindow(cfg, selector, now, before[id]);
    }
  }

  /** When no statement that runs fails or has more than a ceiling to delete, what is left is exactly what
      is within its own window. */
  lemma AuditPolicyEnforced(cfg: RetentionConfig, selector: string, now: Instant, before: Rows, after: Rows,
                            gone: set<nat>, w: (Weather, Weather))
    requires AuditPurged(cfg, selector, now, before, after, gone, w)
    requires ErrorOf(GrantBacklog(cfg, selector, now, before), w.0).None?
    requires ErrorOf(OrdinaryBacklog(cfg, selector, now, before), w.1).None?
    requires CarveOut(cfg, selector) ==> |Expired(before, GrantStatement(cfg, selector, now))| <= CEILING
    requires cfg.writeAudit > 0 ==> |Expired(before, OrdinaryStatement(cfg, selector, now))| <= CEILING
    ensures forall id :: id in before ==> (id in after <==> !PastOwnWindow(cfg, selector, now, before[id]))
  {
    hide SweepError;
    var grant := if CarveOut(cfg, selector) then Expired(before, GrantStatement(cfg, selector, now)) else {};
    var rest := if cfg.writeAudit > 0 then Expired(before, OrdinaryStatement(cfg, selector, now)) else {};
    forall id | id in before
      ensures id in grant + rest <==> PastOwnWindow(cfg, selector, now, before[id])
    {
      MayGoIffPastOwnWindow(cfg, selector, now, before[id]);
    }
    JoinSizes(grant, rest);
    SubsetSize(gone, grant + rest);
  }

  // ---------- one sweep over all tables ----------

  datatype PurgeResult = PurgeResult(
    writeAudit: nat, writeAuditGrantRole: nat, signerQuota: nat, signerBlacklist: nat, adminAudit: nat)

  function Total(r: PurgeResult): nat {
    r.writeAudit + r.writeAuditGrantRole + r.signerQuota + r.signerBlacklist + r.adminAudit
  }

  function AgeStatement(window: nat, now: Instant): Statement {
    Statement(now - window, Every)
  }

  type Forecast = (Weather, Weather, Weather, Weather, Weather)

  /** The statement that ends the sweep: 0 to 4, or 5 when none fails. */
  function FailsIn(b: Backlogs, w: Forecast): nat {
    if ErrorOf(b.grantRole, w.0).Some? then 0
    else if ErrorOf(b.ordinary, w.1).Some? then 1
    else if ErrorOf(b.signerQuota, w.2).Some? then 2
    else if ErrorOf(b.signerBlacklist, w.3).Some? then 3
    else if ErrorOf(b.adminAudit, w.4).Some? then 4
    else 5
  }

  function ErrorAt(b: Backlogs, w: Forecast, n: nat): Option<PurgeError> {
    match n
    case 0 => ErrorOf(b.grantRole, w.0)
    case 1 => ErrorOf(b.ordinary, w.1)
    case 2 => ErrorOf(b.signerQuota, w.2)
    case 3 => ErrorOf(b.signerBlacklist, w.3)
    case 4 => ErrorOf(b.adminAudit, w.4)
    case _ => None
  }

  function Reported(b: Backlogs, w: Forecast): PurgeResult {
    var n := FailsIn(b, w);
    PurgeResult(
      if n > 1 then DeletedOf(b.ordinary, w.1) else 0,
      if n > 1 then DeletedOf(b.grantRole, w.0) else 0,
      if n > 2 then DeletedOf(b.signerQuota, w.2) else 0,
      if n > 3 then DeletedOf(b.signerBlacklist, w.3) else 0,
      if n > 4 then DeletedOf(b.adminAudit, w.4) else 0)
  }

  /** Rows that were deleted and are not in the report: those of the statement that fails, and grantRole
      rows when it is the ordinary statement that fails after them. */
  function Unreported(b: Backlogs, w: Forecast): nat {
    match FailsIn(b, w)
    case 0 => DeletedOf(b.grantRole, w.0)
    case 1 => DeletedOf(b.grantRole, w.0) + DeletedOf(b.ordinary, w.1)
    case 2 => DeletedOf(b.signerQuota, w.2)
    case 3 => DeletedOf(b.signerBlacklist, w.3)
    case 4 => DeletedOf(b.adminAudit, w.4)
    case _ => 0
  }

  /** A report falls short exactly when the statement that failed had finished a batch, or it was the
      ordinary statement and there were grantRole rows to delete before it. */
  lemma ReportFallsShortIff(b: Backlogs, w: Forecast)
    ensures Unreported(b, w) > 0 <==>
            match FailsIn(b, w)
            case 0 => w.0.failsAt != Some(0)
            case 1 => w.1.failsAt != Some(0) || (b.grantRole.Some? && b.grantRole.value > 0)
            case 2 => w.2.failsAt != Some(0)
            case 3 => w.3.failsAt != Some(0)
            case 4 => w.4.failsAt != Some(0)
            case _ => false
  {
    hide SweepError, SweepTotal;
    var e := (n: Option<nat>) => if n.Some? then n.value else 0;
    FailedSweepTotal(e(b.grantRole), w.0);
    FailedSweepTotal(e(b.ordinary), w.1);
    FailedSweepTotal(e(b.signerQuota), w.2);
    FailedSweepTotal(e(b.signerBlacklist), w.3);
    FailedSweepTotal(e(b.adminAudit), w.4);
  }

  /** Both happen: of a backlog of 7000, the second batch failing leaves 5000 deleted rows out of the report,
      and the first batch failing leaves out none. */
  lemma ShortAndExactReports(fair: Weather)
    requires fair == Weather(None, None)
    ensures var b := Backlogs(None, None, None, None, Some(7000));
            && FailsIn(b, (fair, fair, fair, fair, Weather(Some(1), None))) == 4
            && Unreported(b, (fair, fair, fair, fair, Weather(Some(1), None))) == 5000
            && FailsIn(b, (fair, fair, fair, fair, Weather(Some(0), None))) == 4
            && Unreported(b, (fair, fair, fair, fair, Weather(Some(0), None))) == 0
  {
  }

  /** A table of the sweep, purged or left alone. */
  ghost predicate Reached(reached: bool, window: nat, now: Instant, before: Rows, after: Rows, gone: set<nat>, w: Weather) {
    if reached then AgePurged(window, now, before, after, gone, w) else after == before && gone == {}
  }

  /** What a report says, in terms of the rows that went: each field counts the rows of its own statement,
      those of write_audit told apart by their selector, up to the statement that failed. */
  lemma ReportCountsRows(cfg: RetentionConfig, selector: string, now: Instant, b: Backlogs, w: Forecast,
                         gone: seq<set<nat>>, before: Rows, after: Rows)
    requires b.grantRole == GrantBacklog(cfg, selector, now, before)
    requires b.ordinary == OrdinaryBacklog(cfg, selector, now, before)
    requires Refusal(true, cfg, selector).None? && |gone| == 4
    requires AuditPurged(cfg, selector, now, before, after, gone[0], (w.0, w.1))
    requires FailsIn(b, w) >= 2 ==> |gone[1]| == DeletedOf(b.signerQuota, w.2)
    requires FailsIn(b, w) >= 3 ==> |gone[2]| == DeletedOf(b.signerBlacklist, w.3)
    requires FailsIn(b, w) >= 4 ==> |gone[3]| == DeletedOf(b.adminAudit, w.4)
    ensures var res := Reported(b, w);
            var clean := ErrorOf(b.grantRole, w.0).None? && ErrorOf(b.ordinary, w.1).None?;
            var quotaClean := clean && ErrorOf(b.signerQuota, w.2).None?;
            var listClean := quotaClean && ErrorOf(b.signerBlacklist, w.3).None?;
            && res.writeAuditGrantRole
               == (if clean && cfg.writeAuditGrantRole > 0 then |WithSelector(before, gone[0], selector)| else 0)
            && res.writeAudit + res.writeAuditGrantRole == (if clean then |gone[0]| else 0)
            && res.signerQuota == (if quotaClean then |gone[1]| else 0)
            && res.signerBlacklist == (if listClean then |gone[2]| else 0)
            && res.adminAudit == (if listClean && ErrorOf(b.adminAudit, w.4).None? then |gone[3]| else 0)
  {
    hide SweepError, SweepTotal, WithSelector, Expired;
  }

  /** The four tables behind a connection pool. */
  datatype Pool = Pool(writeAudit: Table, signerQuota: Table, signerBlacklist: Table, adminAudit: Table)

  predicate FourTables(p: Pool) {
    && p.writeAudit != p.signerQuota && p.writeAudit != p.signerBlacklist && p.writeAudit != p.adminAudit
    && p.signerQuota != p.signerBlacklist && p.signerQuota != p.adminAudit && p.signerBlacklist != p.adminAudit
  }

  /** Refuses a missing pool, and a grantRole window whose selector is not known. */
  method NewPurger(pool: Option<Pool>, cfg: RetentionConfig, grantRoleSelector: string)
    returns (r: Result<Purger, PurgerError>)
    requires pool.Some? ==> FourTables(pool.value)
    ensures match Refusal(pool.Some?, cfg, grantRoleSelector)
            case Some(e) => r == Err(e)
            case None =>
              && r.Ok? && fresh(r.value) && r.value.Valid()
              && r.value.pool == pool.value && r.value.cfg == cfg && r.value.grantRoleSelector == grantRoleSelector
    ensures r == Err(NoPool) <==> pool.None? || (cfg.writeAuditGrantRole > 0 && grantRoleSelector == "")
  {
    if pool.None? {
      return Err(NoPool);
    }
    if cfg.writeAuditGrantRole > 0 && grantRoleSelector == "" {
      return Err(NoPool);
    }
    var p := new Purger(pool.value, cfg, grantRoleSelector);
    r := Ok(p);
  }

  class Purger {
    const pool: Pool
    const cfg: RetentionConfig
    const grantRoleSelector: string

    ghost predicate Valid() {
      FourTables(pool) && Refusal(true, cfg, grantRoleSelector).None?
    }

    constructor (pool: Pool, cfg: RetentionConfig, grantRoleSelector: string)
      requires FourTables(pool) && Refusal(true, cfg, grantRoleSelector).None?
      ensures Valid() && this.pool == pool && this.cfg == cfg && this.grantRoleSelector == grantRoleSelector
    {
      this.pool, this.cfg, this.grantRoleSelector := pool, cfg, grantRoleSelector;
    }

    ghost function BacklogsNow(now: Instant): Backlogs
      reads pool.writeAudit, pool.signerQuota, pool.signerBlacklist, pool.adminAudit
    {
      Backlogs(GrantBacklog(cfg, grantRoleSelector, now, pool.writeAudit.rows),
               OrdinaryBacklog(cfg, grantRoleSelector, now, pool.writeAudit.rows),
               AgeBacklog(cfg.signerQuota, now, pool.signerQuota.rows),
               AgeBacklog(cfg.signerBlacklist, now, pool.signerBlacklist.rows),
               AgeBacklog(cfg.adminAudit, now, pool.adminAudit.rows))
    }

    /** The counts of both windows; a failure reports nothing for the statement that failed. */
    method PurgeWriteAudit(now: Instant, w: (Weather, Weather))
      returns (ordinary: nat, grantRole: nat, err: Option<PurgeError>, ghost gone: set<nat>)
      requires Valid()
      modifies pool.writeAudit
      ensures AuditPurged(cfg, grantRoleSelector, now, old(pool.writeAudit.rows), pool.writeAudit.rows, gone, w)
      ensures var g := GrantBacklog(cfg, grantRoleSelector, now, old(pool.writeAudit.rows));
              var o := OrdinaryBacklog(cfg, grantRoleSelector, now, old(pool.writeAudit.rows));
              var eg, eo := ErrorOf(g, w.0), ErrorOf(o, w.1);
              && err == (if eg.Some? then eg else eo)
              && grantRole == (if eg.Some? then 0 else DeletedOf(g, w.0))
              && ordinary == (if eg.Some? || eo.Some? then 0 else DeletedOf(o, w.1))
    {
      hide Expired, Without, Selects, PastOwnWindow, SweepError, SweepTotal, WithSelector;
      var t := pool.writeAudit;
      ghost var before := t.rows;
      ghost var grantGone: set<nat> := {};
      var carveOut := cfg.writeAuditGrantRole > 0 && grantRoleSelector != "";
      NothingGone(before, GrantStatement(cfg, grantRoleSelector, now));
      grantRole := 0;
      if carveOut {
        var cutoff := now - cfg.writeAuditGrantRole;
        grantRole, err, grantGone := DeleteBatched(t, Statement(cutoff, Only(grantRoleSelector)), w.0);
      }
      ghost var middle := t.rows;
      NothingGone(middle, OrdinaryStatement(cfg, grantRoleSelector, now));
      TwoWindows(cfg, grantRoleSelector, now, before, middle, middle, grantGone, {});
      GrantRowsAreGrantGone(cfg, grantRoleSelector, now, before, middle, grantGone, {});
      assert grantGone + {} == grantGone;
      if carveOut && err.Some? {
        return 0, 0, err, grantGone;
      }
      if cfg.writeAudit == 0 {
        return 0, grantRole, None, grantGone;
      }
      var cutoff := now - cfg.writeAudit;
      ghost var ordinaryGone;
      if carveOut {
        ordinary, err, ordinaryGone := DeleteBatched(t, Statement(cutoff, Except(grantRoleSelector)), w.1);
      } else {
        ordinary, err, ordinaryGone := DeleteBatched(t, Statement(cutoff, Every), w.1);
      }
      gone := grantGone + ordinaryGone;
      GrantRowsAreGrantGone(cfg, grantRoleSelector, now, before, middle, grantGone, ordinaryGone);
      TwoWindows(cfg, grantRoleSelector, now, before, middle, t.rows, grantGone, ordinaryGone);
      if err.Some? {
        return 0, grantRole, err, gone;
      }
    }

    /** A window of zero keeps everything. */
    method PurgeAged(t: Table, window: nat, now: Instant, w: Weather)
      returns (n: nat, err: Option<PurgeError>, ghost gone: set<nat>)
      modifies t
      ensures AgePurged(window, now, old(t.rows), t.rows, gone, w)
      ensures n == DeletedOf(AgeBacklog(window, now, old(t.rows)), w)
      ensures err == ErrorOf(AgeBacklog(window, now, old(t.rows)), w)
    {
      hide Expired, Without, SweepError, SweepTotal;
      NothingGone(t.rows, AgeStatement(window, now));
      n, err, gone := 0, None, {};
      if window > 0 {
        n, err, gone := DeleteBatched(t, AgeStatement(window, now), w);
      }
    }

    /** Stops at the first statement that fails; its rows are not in the result, and later tables are left
        alone. */
    method PurgeOnce(now: Instant, w: Forecast)
      returns (res: PurgeResult, err: Option<PurgeError>, ghost gone: seq<set<nat>>)
      requires Valid()
      modifies pool.writeAudit, pool.signerQuota, pool.signerBlacklist, pool.adminAudit
      ensures var b := old(BacklogsNow(now)); var n := FailsIn(b, w);
              && err == ErrorAt(b, w, n)
              && res == Reported(b, w)
              && |gone| == 4 && |gone[0]| + |gone[1]| + |gone[2]| + |gone[3]| == Total(res) + Unreported(b, w)
              && AuditPurged(cfg, grantRoleSelector, now, old(pool.writeAudit.rows), pool.writeAudit.rows, gone[0],
                             (w.0, w.1))
              && Reached(n >= 2, cfg.signerQuota, now, old(pool.signerQuota.rows), pool.signerQuota.rows, gone[1], w.2)
              && Reached(n >= 3, cfg.signerBlacklist, now, old(pool.signerBlacklist.rows), pool.signerBlacklist.rows, gone[2],
                         w.3)
              && Reached(n >= 4, cfg.adminAudit, now, old(pool.adminAudit.rows), pool.adminAudit.rows, gone[3], w.4)
    {
      hide Without, PastOwnWindow, Expired, Backlog, GrantBacklog, OrdinaryBacklog, AgeBacklog, ErrorOf, DeletedOf, GrantRowsGone;
      res := PurgeResult(0, 0, 0, 0, 0);
      var wa, waGrant, n;
      ghost var g0, g1, g2, g3;
      wa, waGrant, err, g0 := PurgeWriteAudit(now, (w.0, w.1));
      gone := [g0, {}, {}, {}];
      if err.Some? {
        return;
      }
      res := res.(writeAudit := wa, writeAuditGrantRole := waGrant);
      n, err, g1 := PurgeAged(pool.signerQuota, cfg.signerQuota, now, w.2);
      gone := [g0, g1, {}, {}];
      if err.Some? {
        return;
      }
      res := res.(signerQuota := n);
      n, err, g2 := PurgeAged(pool.signerBlacklist, cfg.signerBlacklist, now, w.3);
      gone := [g0, g1, g2, {}];
      if err.Some? {
        return;
      }
      res := res.(signerBlacklist := n);
      n, err, g3 := PurgeAged(pool.adminAudit, cfg.adminAudit, now, w.4);
      gone := [g0, g1, g2, g3];
      if err.Some? {
        return;
      }
      res := res.(adminAudit := n);
    }
  }

  // ---------- the quota counters and their purge ----------

  /** The purge of signer_quota never deletes the counter of a running quota window exactly when its
      retention window is no shorter than the quota window, less the last nanosecond. */
  lemma PurgeSparesLiveCountersIff(retention: nat, window: int)
    requires window > 0 && retention > 0
    ensures (forall now :: !Selects(AgeStatement(retention, now), Row(SignerQuota.WindowStart(now, window), "")))
            <==> retention >= window - 1
  {
    forall now
      ensures SignerQuota.WindowStart(now, window) <= now < SignerQuota.WindowStart(now, window) + window
    {
      SignerQuota.WindowStartIsLastBoundary(now, window, 0);
    }
    if retention < window - 1 {
      assert SignerQuota.WindowStart(window - 1, window) == 0;
      assert Selects(AgeStatement(retention, window - 1), Row(0, ""));
    }
  }
}
