/** internal/mcp/keys_pending.go: requests for API keys, waiting for a reviewer. The claims hold for one
    store object that alone writes its file. */
module PendingKeys {
  import opened Outcomes

  const PENDING := "pending"
  const APPROVED := "approved"
  const REJECTED := "rejected"

  datatype Request = Request(
    id: string,
    email: string,
    company: string,
    intendedUse: string,
    status: string,
    createdAt: Instant,
    decidedAt: Option<Instant>,
    deciderID: string,
    keyID: string,
    remoteAddr: string)

  type Requests = seq<Request>

  datatype PendingError = NotFound | NotPending | InvalidStatus | SaveFailed

  function NewRequest(id: string, email: string, company: string, intendedUse: string, createdAt: Instant,
                      remoteAddr: string): Request
  {
    Request(id, email, company, intendedUse, PENDING, createdAt, None, "", "", remoteAddr)
  }

  /** The first request with the ID. */
  function FindRequest(items: Requests, id: string): (r: Option<nat>)
    ensures r.Some? ==> r.value < |items| && items[r.value].id == id && forall k :: 0 <= k < r.value ==> items[k].id != id
    ensures r.None? ==> forall k :: 0 <= k < |items| ==> items[k].id != id
  {
    if |items| == 0 then None
    else if items[0].id == id then Some(0)
    else
      match FindRequest(items[1..], id)
      case None => None
      case Some(i) => assert forall k :: 0 < k < |items| ==> items[1..][k - 1] == items[k]; Some(i + 1)
  }

  function RequestOf(items: Requests, id: string): Option<Request> {
    match FindRequest(items, id)
    case None => None
    case Some(i) => Some(items[i])
  }

  datatype Decision = Decision(id: string, status: string, deciderID: string, keyID: string, now: Instant)

  function Decided(r: Request, d: Decision): Request {
    r.(status := d.status, decidedAt := Some(d.now), deciderID := d.deciderID,
       keyID := if d.status == APPROVED then d.keyID else r.keyID)
  }

  /** What stands in the way of a decision. */
  function Refusal(items: Requests, d: Decision): Option<PendingError> {
    if d.status != APPROVED && d.status != REJECTED then Some(InvalidStatus)
    else
      match RequestOf(items, d.id)
      case None => Some(NotFound)
      case Some(r) => if r.status != PENDING then Some(NotPending) else None
  }

  function AfterDecision(items: Requests, d: Decision, saves: bool): Requests {
    if Refusal(items, d).None? && saves
    then
      var i := FindRequest(items, d.id).value;
      items[i := Decided(items[i], d)]
    else items
  }

  /** A decision changes the request it names and no other. */
  lemma DecisionChangesOne(items: Requests, d: Decision, saves: bool, id: string)
    ensures RequestOf(AfterDecision(items, d, saves), id)
         == if id == d.id && Refusal(items, d).None? && saves then Some(Decided(RequestOf(items, id).value, d))
            else RequestOf(items, id)
  {
    if Refusal(items, d).None? && saves {
      var i := FindRequest(items, d.id).value;
      SameIDsSameFind(items, items[i := Decided(items[i], d)], id);
    }
  }

  lemma SameIDsSameFind(a: Requests, b: Requests, id: string)
    requires |a| == |b| && forall k :: 0 <= k < |a| ==> a[k].id == b[k].id
    ensures FindRequest(a, id) == FindRequest(b, id)
  {
  }

  /** A new request is found by its own ID, unless one with that ID came before. */
  lemma AddedRequestIsFound(items: Requests, r: Request, id: string)
    ensures RequestOf(items + [r], id)
         == if RequestOf(items, id).Some? || r.id != id then RequestOf(items, id) else Some(r)
  {
    var f, g := FindRequest(items, id), FindRequest(items + [r], id);
    if f.Some? {
      assert (items + [r])[f.value] == items[f.value];
    } else if r.id == id {
      assert (items + [r])[|items|] == r;
    }
  }

  // ---------- over a whole run ----------

  datatype PendingOp =
    | Add(request: Request, saves: bool)
    | Decide(decision: Decision, saves: bool)

  function Step(items: Requests, op: PendingOp): Requests {
    match op
    case Add(r, saves) => if saves then items + [r] else items
    case Decide(d, saves) => AfterDecision(items, d, saves)
  }

  function Run(items: Requests, ops: seq<PendingOp>): Requests
    decreases |ops|
  {
    if ops == [] then items else Run(Step(items, ops[0]), ops[1..])
  }

  /** Requests stay where they are; only a pending one may change, by one decision. */
  ghost predicate Evolved(before: Requests, after: Requests) {
    && |before| <= |after|
    && forall k :: 0 <= k < |before| ==>
         || after[k] == before[k]
         || (before[k].status == PENDING && after[k].status in {APPROVED, REJECTED}
             && exists d :: after[k] == Decided(before[k], d))
  }

  lemma StepEvolves(items: Requests, op: PendingOp)
    ensures Evolved(items, Step(items, op))
  {
    if op.Decide? && Refusal(items, op.decision).None? && op.saves {
      var i := FindRequest(items, op.decision.id).value;
      assert Step(items, op)[i] == Decided(items[i], op.decision);
    }
  }

  /** Over every run, with saves failing at will, a decided request never changes again, and a pending
      one carries at most one decision. */
  lemma {:induction false} RunEvolves(items: Requests, ops: seq<PendingOp>)
    ensures Evolved(items, Run(items, ops))
    decreases |ops|
  {
    if ops != [] {
      StepEvolves(items, ops[0]);
      RunEvolves(Step(items, ops[0]), ops[1..]);
      EvolvedTransitive(items, Step(items, ops[0]), Run(items, ops));
    }
  }

  lemma EvolvedTransitive(a: Requests, b: Requests, c: Requests)
    requires Evolved(a, b) && Evolved(b, c)
    ensures Evolved(a, c)
  {
    forall k | 0 <= k < |a|
      ensures || c[k] == a[k]
              || (a[k].status == PENDING && c[k].status in {APPROVED, REJECTED} && exists d :: c[k] == Decided(a[k], d))
    {
      assert b[k] == a[k] || (a[k].status == PENDING && b[k].status in {APPROVED, REJECTED});
      assert c[k] == b[k] || b[k].status == PENDING;
    }
  }

  // ---------- counting ----------

  function CountOf(items: Requests, status: string): nat {
    if |items| == 0 then 0
    else CountOf(items[..|items| - 1], status) + if items[|items| - 1].status == status then 1 else 0
  }

  /** The counts a decision moves. */
  lemma {:induction false} DecisionMovesOne(items: Requests, i: nat, r: Request, status: string)
    requires i < |items|
    ensures CountOf(items[i := r], status)
         == CountOf(items, status) + (if r.status == status then 1 else 0) - (if items[i].status == status then 1 else 0)
  {
    var last := |items| - 1;
    if i == last {
      assert items[i := r][..last] == items[..last];
    } else {
      assert items[i := r][..last] == items[..last][i := r];
      DecisionMovesOne(items[..last], i, r, status);
    }
  }

  /** While every status is a known one, the three counts add up to all requests. */
  lemma {:induction false} CountsAddUpIff(items: Requests)
    ensures CountOf(items, PENDING) + CountOf(items, APPROVED) + CountOf(items, REJECTED) <= |items|
    ensures CountOf(items, PENDING) + CountOf(items, APPROVED) + CountOf(items, REJECTED) == |items| <==>
            forall k :: 0 <= k < |items| ==> items[k].status in {PENDING, APPROVED, REJECTED}
  {
    if |items| > 0 {
      var rest := items[..|items| - 1];
      CountsAddUpIff(rest);
      assert items == rest + [items[|items| - 1]];
      assert PENDING != APPROVED && PENDING != REJECTED && APPROVED != REJECTED by {
        assert PENDING[0] != APPROVED[0] && PENDING[0] != REJECTED[0] && APPROVED[0] != REJECTED[0];
      }
    }
  }

  // ---------- the store ----------

  class PendingKeyStore {
    var items: Requests
    ghost var disk: Requests

    ghost predicate Valid()
      reads this
    {
      disk == items
    }

    constructor (loaded: Requests)
      ensures Valid() && items == loaded
    {
      items, disk := loaded, loaded;
    }

    /** A failure leaves the file as it was. */
    method Save(snapshot: Requests, saves: bool)
      modifies this`disk
      ensures disk == if saves then snapshot else old(disk)
    {
      if saves {
        disk := snapshot;
      }
    }

    method Add(id: string, email: string, company: string, intendedUse: string, remoteAddr: string, now: Instant,
               saves: bool)
      returns (r: Result<Request, PendingError>)
      requires Valid()
      modifies this
      ensures Valid()
      ensures var req := NewRequest(id, email, company, intendedUse, now, remoteAddr);
              && items == Step(old(items), PendingOp.Add(req, saves))
              && r == if saves then Ok(req) else Err(SaveFailed)
      ensures r.Ok? ==>
                && items == old(items) + [r.value]
                && (r.value.id, r.value.email, r.value.company) == (id, email, company)
                && (r.value.intendedUse, r.value.remoteAddr, r.value.createdAt) == (intendedUse, remoteAddr, now)
                && r.value.status == "pending" && r.value.decidedAt == None
                && r.value.deciderID == "" && r.value.keyID == ""
      ensures r.Err? ==> r == Err(SaveFailed) && items == old(items)
    {
      var req := NewRequest(id, email, company, intendedUse, now, remoteAddr);
      items := items + [req];
      Save(items, saves);
      if !saves {
        items := items[..|items| - 1];
        assert items == old(items);
        return Err(SaveFailed);
      }
      r := Ok(req);
    }

    method Get(id: string) returns (r: Option<Request>)
      ensures r == RequestOf(items, id)
    {
      var i := Search(id);
      r := if i.None? then None else Some(items[i.value]);
    }

    method Search(id: string) returns (r: Option<nat>)
      ensures r == FindRequest(items, id)
    {
      for i := 0 to |items|
        invariant forall k :: 0 <= k < i ==> items[k].id != id
      {
        if items[i].id == id {
          return Some(i);
        }
      }
      r := None;
    }

    /** A status nobody knows gets a count of its own. */
    method CountByStatus() returns (counts: map<string, nat>)
      ensures PENDING in counts && APPROVED in counts && REJECTED in counts
      ensures forall k :: 0 <= k < |items| ==> items[k].status in counts
      ensures forall s :: s in counts ==> counts[s] == CountOf(items, s)
    {
      counts := map[PENDING := 0, APPROVED := 0, REJECTED := 0];
      for i := 0 to |items|
        invariant PENDING in counts && APPROVED in counts && REJECTED in counts
        invariant forall k :: 0 <= k < i ==> items[k].status in counts
        invariant forall s :: s in counts ==> counts[s] == CountOf(items[..i], s)
        invariant forall s :: s !in counts ==> CountOf(items[..i], s) == 0
      {
        var s := items[i].status;
        assert items[..i + 1][..i] == items[..i];
        counts := counts[s := (if s in counts then counts[s] else 0) + 1];
      }
      assert items[..|items|] == items;
    }

    method Decide(id: string, status: string, deciderID: string, keyID: string, now: Instant, saves: bool)
      returns (r: Result<Request, PendingError>)
      requires Valid()
      modifies this
      ensures Valid()
      ensures var d := Decision(id, status, deciderID, keyID, now);
              && items == Step(old(items), PendingOp.Decide(d, saves))
              && r == match Refusal(old(items), d)
                      case Some(e) => Err(e)
                      case None => if saves then Ok(Decided(RequestOf(old(items), id).value, d)) else Err(SaveFailed)
      ensures var known, found := status in {"approved", "rejected"}, FindRequest(old(items), id);
              var open := known && found.Some? && old(items)[found.value].status == "pending";
              && (r == Err(InvalidStatus) <==> !known)
              && (r == Err(NotFound) <==> known && forall k :: 0 <= k < |old(items)| ==> old(items)[k].id != id)
              && (r == Err(NotPending) <==> known && found.Some? && !open)
              && (r == Err(SaveFailed) <==> open && !saves)
              && (r.Err? ==> items == old(items))
              && (r.Ok? ==>
                    var was := old(items)[found.value];
                    && items == old(items)[found.value := r.value]
                    && r.value.status == status && r.value.decidedAt == Some(now) && r.value.deciderID == deciderID
                    && r.value.keyID == (if status == "approved" then keyID else was.keyID)
                    && (r.value.id, r.value.email, r.value.company) == (was.id, was.email, was.company)
                    && (r.value.intendedUse, r.value.remoteAddr, r.value.createdAt)
                       == (was.intendedUse, was.remoteAddr, was.createdAt))
    {
      if status != APPROVED && status != REJECTED {
        return Err(InvalidStatus);
      }
      var idx := Search(id);
      if idx.None? {
        return Err(NotFound);
      }
      var i := idx.value;
      if items[i].status != PENDING {
        return Err(NotPending);
      }
      var prev := items[i];
      items := items[i := items[i].(status := status, decidedAt := Some(now), deciderID := deciderID)];
      if status == APPROVED {
        items := items[i := items[i].(keyID := keyID)];
      }
      assert items == old(items)[i := Decided(prev, Decision(id, status, deciderID, keyID, now))];
      Save(items, saves);
      if !saves {
        items := items[i := prev];
        assert items == old(items);
        return Err(SaveFailed);
      }
      r := Ok(items[i]);
    }
  }
}
