/** internal/mcp/signer_quota.go: writes counted per signer and fixed window. */
module SignerQuota {
  import opened Outcomes

  /** Twenty bytes, as a number. */
  type Address = nat

  /** A row of the counter table is named by signer and window start. */
  datatype Slot = Slot(signer: Address, windowStart: Instant)

  function WindowStart(now: Instant, window: int): Instant {
    if window <= 0 then now else now - now % window
  }

  predicate IsBoundary(t: Instant, window: int)
    requires window > 0
  {
    t % window == 0
  }

  /** The start is the last window boundary at or before now, a boundary being a multiple of the window;
      without a window every instant is its own start. */
  lemma WindowStartIsLastBoundary(now: Instant, window: int, b: Instant)
    ensures window > 0 ==>
              && WindowStart(now, window) <= now < WindowStart(now, window) + window
              && WindowStart(now, window) % window == 0
              && (b % window == 0 && b <= now ==> b <= WindowStart(now, window))
    ensures window <= 0 ==> WindowStart(now, window) == now
  {
    if window > 0 {
      LastBoundary(now, window, b);
    }
  }

  lemma LastBoundary(now: Instant, window: int, b: Instant)
    requires window > 0
    ensures WindowStart(now, window) <= now < WindowStart(now, window) + window
    ensures IsBoundary(WindowStart(now, window), window)
    ensures IsBoundary(b, window) && b <= now ==> b <= WindowStart(now, window)
  {
    var q := now / window;
    assert now == q * window + now % window;
    assert WindowStart(now, window) == q * window;
    MultipleIsBoundary(q, window);
    if IsBoundary(b, window) && b <= now {
      var p := b / window;
      assert b == p * window;
      if p > q {
        NextBoundary(p, q, window);
      } else {
        BoundaryOrder(p, q, window);
      }
    }
  }

  lemma MultipleIsBoundary(q: int, window: int)
    requires window > 0
    ensures IsBoundary(q * window, window)
  {
    var t := q * window;
    assert t == (t / window) * window + t % window;
    var d := q - t / window;
    assert d * window == t % window;
    if d > 0 {
      BoundaryOrder(1, d, window);
    } else if d < 0 {
      BoundaryOrder(d, -1, window);
    }
  }

  lemma BoundaryOrder(p: int, q: int, window: int)
    requires p <= q && window > 0
    ensures p * window <= q * window
  {
  }

  lemma NextBoundary(p: int, q: int, window: int)
    requires p > q && window > 0
    ensures p * window >= q * window + window
  {
    BoundaryOrder(q + 1, p, window);
  }

  /** Two instants share a counter exactly when no boundary lies between them. */
  lemma SameWindowIff(s: Instant, t: Instant, window: int)
    requires window > 0 && s <= t
    ensures WindowStart(s, window) == WindowStart(t, window) <==> WindowStart(t, window) <= s
  {
    LastBoundary(s, window, WindowStart(t, window));
    LastBoundary(t, window, WindowStart(s, window));
  }

  // ---------- the counter table ----------

  type Counters = map<Slot, nat>

  function CountOf(rows: Counters, slot: Slot): nat {
    if slot in rows then rows[slot] else 0
  }

  function Incremented(rows: Counters, slot: Slot): Counters {
    rows[slot := CountOf(rows, slot) + 1]
  }

  class SignerQuotaStore {
    var rows: Counters

    constructor ()
      ensures rows == map[]
    {
      rows := map[];
    }

    /** None when the query fails; a signer without a row has written nothing. */
    method Count(slot: Slot, answered: bool) returns (n: Option<nat>)
      ensures n == if answered then Some(CountOf(rows, slot)) else None
      ensures answered && slot in rows ==> n == Some(rows[slot])
      ensures answered && slot !in rows ==> n == Some(0)
    {
      if !answered {
        return None;
      }
      n := Some(if slot in rows then rows[slot] else 0);
    }

    /** Inserts the row, or adds one to it. */
    method Increment(slot: Slot, answered: bool)
      modifies this
      ensures rows == if answered then Incremented(old(rows), slot) else old(rows)
      ensures answered ==>
                && rows.Keys == old(rows).Keys + {slot}
                && rows[slot] == (if slot in old(rows) then old(rows)[slot] + 1 else 1)
                && forall other :: other in rows && other != slot ==> rows[other] == old(rows)[other]
    {
      if answered {
        if slot in rows {
          rows := rows[slot := rows[slot] + 1];
        } else {
          rows := rows[slot := 1];
        }
      }
    }
  }
}
