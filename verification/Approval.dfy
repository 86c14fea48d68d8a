/** internal/mcp/admin_keys_pending.go: reviewers approve and reject requests concurrently. An approval
    takes four steps, each atomic in the store it touches: it reads the request, mints a key, records
    the decision and, when that fails, deletes the key again. */
module Approval {
  import opened Outcomes
  import opened KeyHashing
  import opened KeyEntries
  import opened ManagedKeys
  import P = PendingKeys

  const PREFIX := "pending:"

  const ROLES := ["reader"]

  /** The client ID of the key issued for a request. */
  function KeyIDOf(id: string): string {
    PREFIX + id
  }

  lemma KeyIDInjective(a: string, b: string)
    ensures KeyIDOf(a) == KeyIDOf(b) <==> a == b
    ensures PREFIX <= KeyIDOf(a) && KeyIDOf(a) == "pending:" + a
  {
    assert KeyIDOf(a)[|PREFIX|..] == a && KeyIDOf(b)[|PREFIX|..] == b;
  }

  // ---------- which clients hold keys ----------

  function ClientIDs(es: Entries): set<string> {
    set k | 0 <= k < |es| :: es[k].id
  }

  /** What a store operation does to the set of clients. */
  function ClientsAfter(ids: set<string>, op: KeyOp, saves: bool): set<string> {
    if !saves then ids
    else
      match op
      case Create(id, _, _, _, _) => ids + {id}
      case Update(_, _) => ids
      case Delete(id) => ids - {id}
  }

  lemma StoreStepClients(s: Stored, h: Hasher, op: KeyOp, saves: bool)
    requires UniqueIDs(s.entries)
    ensures UniqueIDs(StoreStep(s, h, op, saves).entries)
    ensures ClientIDs(StoreStep(s, h, op, saves).entries) == ClientsAfter(ClientIDs(s.entries), op, saves)
    ensures Failure(s.entries, h, op, saves).None? <==> saves && (op.Create? <==> op.id !in ClientIDs(s.entries))
  {
    var es, ids := s.entries, ClientIDs(s.entries);
    assert IndexOfID(es, op.id).Some? <==> op.id in ids;
    if Apply(es, h, op).Ok? {
      var next := Apply(es, h, op).value;
      match op
      case Create(id, raw, roles, createdAt, expiresAt) =>
        CreateClients(es, NewEntry(h, id, raw, roles, createdAt, expiresAt));
      case Update(id, upd) => UpdateClients(es, IndexOfID(es, id).value, Updated(es[IndexOfID(es, id).value], upd));
      case Delete(id) => DeleteClients(es, IndexOfID(es, id).value);
    }
  }

  lemma CreateClients(es: Entries, e: KeyEntry)
    requires UniqueIDs(es) && e.id !in ClientIDs(es)
    ensures UniqueIDs(es + [e]) && ClientIDs(es + [e]) == ClientIDs(es) + {e.id}
  {
    var next := es + [e];
    assert forall k :: 0 <= k < |es| ==> next[k] == es[k];
    assert next[|es|] == e;
  }

  lemma UpdateClients(es: Entries, i: nat, e: KeyEntry)
    requires UniqueIDs(es) && i < |es| && e.id == es[i].id
    ensures UniqueIDs(es[i := e]) && ClientIDs(es[i := e]) == ClientIDs(es)
  {
    assert forall k :: 0 <= k < |es| ==> es[i := e][k].id == es[k].id;
  }

  lemma DeleteClients(es: Entries, i: nat)
    requires UniqueIDs(es) && i < |es|
    ensures UniqueIDs(es[..i] + es[i + 1..]) && ClientIDs(es[..i] + es[i + 1..]) == ClientIDs(es) - {es[i].id}
  {
    var next := es[..i] + es[i + 1..];
    assert forall k :: 0 <= k < i ==> next[k] == es[k];
    assert forall k :: i < k < |es| ==> next[k - 1] == es[k];
  }

  // ---------- the protocol ----------

  /** How far a reviewer is with an approval. */
  datatype Phase =
    | Idle
    | Got(id: string)
    | Minted(id: string)
    | Undoing(id: string)

  type Reviewer = nat

  /** Both stores, the reviewers, and the requests whose key could not be deleted again. */
  datatype Desk = Desk(items: P.Requests, keys: Stored, phases: map<Reviewer, Phase>, orphans: set<string>)

  datatype Event =
    | Get(who: Reviewer, id: string)
    | Mint(who: Reviewer, raw: RawKey, now: Instant, saves: bool)
    | Record(who: Reviewer, deciderID: string, now: Instant, saves: bool)
    | Undo(who: Reviewer, saves: bool)
    | Reject(id: string, deciderID: string, now: Instant, saves: bool)
    | Submit(request: P.Request, saves: bool)
    | Elsewhere(op: KeyOp, saves: bool)

  function PhaseOf(d: Desk, who: Reviewer): Phase {
    if who in d.phases then d.phases[who] else Idle
  }

  function Approve(id: string, deciderID: string, now: Instant): P.Decision {
    P.Decision(id, P.APPROVED, deciderID, KeyIDOf(id), now)
  }

  function MintOp(id: string, raw: RawKey, now: Instant): KeyOp {
    KeyOp.Create(KeyIDOf(id), raw, ROLES, now, 0)
  }

  function Step(d: Desk, h: Hasher, ev: Event): Desk {
    match ev
    case Get(who, id) =>
      var r := P.RequestOf(d.items, id);
      if PhaseOf(d, who) == Idle && r.Some? && r.value.status == P.PENDING
      then d.(phases := d.phases[who := Got(id)]) else d
    case Mint(who, raw, now, saves) =>
      if !PhaseOf(d, who).Got? then d
      else
        var op := MintOp(PhaseOf(d, who).id, raw, now);
        var ok := Failure(d.keys.entries, h, op, saves).None?;
        d.(keys := StoreStep(d.keys, h, op, saves),
           phases := d.phases[who := if ok then Minted(PhaseOf(d, who).id) else Idle])
    case Record(who, deciderID, now, saves) =>
      if !PhaseOf(d, who).Minted? then d
      else
        var decision := Approve(PhaseOf(d, who).id, deciderID, now);
        var ok := P.Refusal(d.items, decision).None? && saves;
        d.(items := P.AfterDecision(d.items, decision, saves),
           phases := d.phases[who := if ok then Idle else Undoing(PhaseOf(d, who).id)])
    case Undo(who, saves) =>
      if !PhaseOf(d, who).Undoing? then d
      else
        var id := PhaseOf(d, who).id;
        var op := KeyOp.Delete(KeyIDOf(id));
        var ok := Failure(d.keys.entries, h, op, saves).None?;
        d.(keys := StoreStep(d.keys, h, op, saves),
           phases := d.phases[who := Idle],
           orphans := if ok then d.orphans else d.orphans + {id})
    case Reject(id, deciderID, now, saves) =>
      d.(items := P.AfterDecision(d.items, P.Decision(id, P.REJECTED, deciderID, "", now), saves))
    case Submit(request, saves) =>
      d.(items := P.Step(d.items, P.Add(request, saves)))
    case Elsewhere(op, saves) =>
      d.(keys := StoreStep(d.keys, h, op, saves))
  }

  function Run(d: Desk, h: Hasher, events: seq<Event>): Desk
    decreases |events|
  {
    if events == [] then d else Run(Step(d, h, events[0]), h, events[1..])
  }

  /** New requests start out pending; nobody else adds or deletes keys of requests. */
  predicate Lawful(ev: Event) {
    && (ev.Submit? ==> ev.request.status == P.PENDING)
    && (ev.Elsewhere? ==> ev.op.Update? || !(PREFIX <= ev.op.id))
  }

  // ---------- the invariant ----------

  predicate IsApproved(items: P.Requests, id: string) {
    P.RequestOf(items, id).Some? && P.RequestOf(items, id).value.status == P.APPROVED
  }

  /** A reviewer whose key is minted and whose decision is not recorded. */
  predicate Midway(d: Desk, who: Reviewer, id: string) {
    PhaseOf(d, who) == Minted(id) || PhaseOf(d, who) == Undoing(id)
  }

  ghost predicate SomeoneMidway(d: Desk, id: string) {
    exists who :: Midway(d, who, id)
  }

  predicate HasKey(d: Desk, id: string) {
    KeyIDOf(id) in ClientIDs(d.keys.entries)
  }

  /** The key of a request exists for exactly one reason: it was approved, one reviewer is midway, or
      its key was orphaned. */
  ghost predicate Accounted(d: Desk, id: string) {
    && (HasKey(d, id) <==> IsApproved(d.items, id) || id in d.orphans || SomeoneMidway(d, id))
    && !(IsApproved(d.items, id) && id in d.orphans)
    && (SomeoneMidway(d, id) ==> !IsApproved(d.items, id) && id !in d.orphans)
    && (forall v, w :: Midway(d, v, id) && Midway(d, w, id) ==> v == w)
    && (IsApproved(d.items, id) ==> P.RequestOf(d.items, id).value.keyID == KeyIDOf(id))
  }

  ghost predicate Inv(d: Desk) {
    UniqueIDs(d.keys.entries) && forall id :: Accounted(d, id)
  }

  ghost predicate Quiet(d: Desk) {
    forall who, id :: !Midway(d, who, id)
  }

  /** Stores at rest whose keys and approvals match are a good start; empty stores are such stores. */
  lemma StartIsAccounted(items: P.Requests, keys: Stored)
    requires UniqueIDs(keys.entries)
    ensures Inv(Desk(items, keys, map[], {})) <==>
            forall id ::
              && (KeyIDOf(id) in ClientIDs(keys.entries) <==> IsApproved(items, id))
              && (IsApproved(items, id) ==> P.RequestOf(items, id).value.keyID == KeyIDOf(id))
    ensures items == [] && keys.entries == [] ==> Inv(Desk(items, keys, map[], {}))
  {
    hide KeyIDOf, P.RequestOf;
    var d := Desk(items, keys, map[], {});
    forall id
      ensures !SomeoneMidway(d, id) && (HasKey(d, id) <==> KeyIDOf(id) in ClientIDs(keys.entries))
      ensures Accounted(d, id) <==>
              && (KeyIDOf(id) in ClientIDs(keys.entries) <==> IsApproved(items, id))
              && (IsApproved(items, id) ==> P.RequestOf(items, id).value.keyID == KeyIDOf(id))
    {
      assert forall who :: !Midway(d, who, id);
    }
    if items == [] && keys.entries == [] {
      NothingRequested();
    }
  }

  lemma NothingRequested()
    ensures forall id :: P.RequestOf([], id).None?
  {
  }

  // ---------- every step keeps it ----------

  lemma GetAccounts(d: Desk, h: Hasher, ev: Event, id: string)
    requires ev.Get? && Accounted(d, id)
    ensures Accounted(Step(d, h, ev), id)
  {
    hide P.RequestOf, ClientIDs, KeyIDOf;
    var next := Step(d, h, ev);
    assert forall w :: Midway(next, w, id) <==> Midway(d, w, id);
  }

  lemma MintAccounts(d: Desk, h: Hasher, ev: Event, id: string)
    requires ev.Mint? && UniqueIDs(d.keys.entries) && Accounted(d, id)
    ensures Accounted(Step(d, h, ev), id)
  {
    hide P.RequestOf, ClientIDs, KeyIDOf, StoreStep, Failure, UniqueIDs;
    if PhaseOf(d, ev.who).Got? {
      var x := PhaseOf(d, ev.who).id;
      var op := MintOp(x, ev.raw, ev.now);
      StoreStepClients(d.keys, h, op, ev.saves);
      KeyIDInjective(x, id);
      var next := Step(d, h, ev);
      assert forall w :: w != ev.who ==> (Midway(next, w, id) <==> Midway(d, w, id));
      assert !Midway(d, ev.who, id);
      assert Midway(next, ev.who, id) <==> x == id && Failure(d.keys.entries, h, op, ev.saves).None?;
    }
  }

  lemma RecordAccounts(d: Desk, h: Hasher, ev: Event, id: string)
    requires ev.Record? && Accounted(d, id)
    ensures Accounted(Step(d, h, ev), id)
  {
    hide P.RequestOf, P.AfterDecision, ClientIDs, KeyIDOf;
    if PhaseOf(d, ev.who).Minted? {
      var x := PhaseOf(d, ev.who).id;
      P.DecisionChangesOne(d.items, Approve(x, ev.deciderID, ev.now), ev.saves, id);
      var next := Step(d, h, ev);
      assert Midway(d, ev.who, x);
      assert forall w :: w != ev.who ==> (Midway(next, w, id) <==> Midway(d, w, id));
      if id == x {
        assert Midway(next, ev.who, x) <==> PhaseOf(next, ev.who) != Idle;
      } else {
        assert SomeoneMidway(next, id) <==> SomeoneMidway(d, id);
        assert HasKey(next, id) <==> HasKey(d, id);
        assert IsApproved(next.items, id) <==> IsApproved(d.items, id);
      }
    }
  }

  lemma UndoAccounts(d: Desk, h: Hasher, ev: Event, id: string)
    requires ev.Undo? && UniqueIDs(d.keys.entries) && Accounted(d, id)
    ensures Accounted(Step(d, h, ev), id)
  {
    hide P.RequestOf, ClientIDs, KeyIDOf, StoreStep, Failure, UniqueIDs;
    if PhaseOf(d, ev.who).Undoing? {
      var x := PhaseOf(d, ev.who).id;
      StoreStepClients(d.keys, h, KeyOp.Delete(KeyIDOf(x)), ev.saves);
      KeyIDInjective(x, id);
      var next := Step(d, h, ev);
      assert Midway(d, ev.who, x);
      assert forall w :: w != ev.who ==> (Midway(next, w, id) <==> Midway(d, w, id));
    }
  }

  lemma RejectAccounts(d: Desk, h: Hasher, ev: Event, id: string)
    requires ev.Reject? && Accounted(d, id)
    ensures Accounted(Step(d, h, ev), id)
  {
    hide P.RequestOf, P.AfterDecision, ClientIDs, KeyIDOf;
    P.DecisionChangesOne(d.items, P.Decision(ev.id, P.REJECTED, ev.deciderID, "", ev.now), ev.saves, id);
    StatusesDiffer();
    var next := Step(d, h, ev);
    assert forall w :: Midway(next, w, id) <==> Midway(d, w, id);
  }

  lemma StatusesDiffer()
    ensures P.PENDING != P.APPROVED && P.PENDING != P.REJECTED && P.APPROVED != P.REJECTED
  {
    assert P.PENDING[0] != P.APPROVED[0] && P.PENDING[0] != P.REJECTED[0] && P.APPROVED[0] != P.REJECTED[0];
  }

  lemma SubmitAccounts(d: Desk, h: Hasher, ev: Event, id: string)
    requires ev.Submit? && Lawful(ev) && Accounted(d, id)
    ensures Accounted(Step(d, h, ev), id)
  {
    hide P.RequestOf, ClientIDs, KeyIDOf;
    P.AddedRequestIsFound(d.items, ev.request, id);
    StatusesDiffer();
    var next := Step(d, h, ev);
    assert forall w :: Midway(next, w, id) <==> Midway(d, w, id);
  }

  lemma ElsewhereAccounts(d: Desk, h: Hasher, ev: Event, id: string)
    requires ev.Elsewhere? && Lawful(ev) && UniqueIDs(d.keys.entries) && Accounted(d, id)
    ensures Accounted(Step(d, h, ev), id)
  {
    hide P.RequestOf, ClientIDs, KeyIDOf, StoreStep, Failure, UniqueIDs;
    StoreStepClients(d.keys, h, ev.op, ev.saves);
    KeyIDInjective(id, id);
    var next := Step(d, h, ev);
    assert forall w :: Midway(next, w, id) <==> Midway(d, w, id);
  }

  /** Every step of every reviewer keeps every key accounted for. */
  lemma StepKeepsInv(d: Desk, h: Hasher, ev: Event)
    requires Inv(d) && Lawful(ev)
    ensures Inv(Step(d, h, ev))
  {
    StepKeepsUniqueIDs(d, h, ev);
    hide Accounted, Step, Lawful, UniqueIDs;
    forall id
      ensures Accounted(Step(d, h, ev), id)
    {
      match ev
      case Get(_, _) => GetAccounts(d, h, ev, id);
      case Mint(_, _, _, _) => MintAccounts(d, h, ev, id);
      case Record(_, _, _, _) => RecordAccounts(d, h, ev, id);
      case Undo(_, _) => UndoAccounts(d, h, ev, id);
      case Reject(_, _, _, _) => RejectAccounts(d, h, ev, id);
      case Submit(_, _) => SubmitAccounts(d, h, ev, id);
      case Elsewhere(_, _) => ElsewhereAccounts(d, h, ev, id);
    }
  }

  lemma StepKeepsUniqueIDs(d: Desk, h: Hasher, ev: Event)
    requires UniqueIDs(d.keys.entries)
    ensures UniqueIDs(Step(d, h, ev).keys.entries)
  {
    hide UniqueIDs, StoreStep, Failure;
    match ev
    case Mint(who, raw, now, saves) =>
      if PhaseOf(d, who).Got? {
        StoreStepClients(d.keys, h, MintOp(PhaseOf(d, who).id, raw, now), saves);
      }
    case Undo(who, saves) =>
      if PhaseOf(d, who).Undoing? {
        StoreStepClients(d.keys, h, KeyOp.Delete(KeyIDOf(PhaseOf(d, who).id)), saves);
      }
    case Elsewhere(op, saves) => StoreStepClients(d.keys, h, op, saves);
    case _ =>
  }

  ghost predicate AllLawful(events: seq<Event>) {
    forall k :: 0 <= k < |events| ==> Lawful(events[k])
  }

  lemma {:induction false} RunKeepsInv(d: Desk, h: Hasher, events: seq<Event>)
    requires Inv(d) && AllLawful(events)
    ensures Inv(Run(d, h, events))
    decreases |events|
  {
    hide Inv, Step, Lawful;
    if events != [] {
      StepKeepsInv(d, h, events[0]);
      RunKeepsInv(Step(d, h, events[0]), h, events[1..]);
    }
  }

  // ---------- what holds at rest ----------

  /** In every run of any number of reviewers, whenever nobody is midway: every request with a key is
      approved or orphaned, every approved request names its key, no two keys share a client, and keys
      and approvals match exactly if and only if no key was orphaned. */
  lemma KeysMatchApprovals(d: Desk, h: Hasher, events: seq<Event>)
    requires Inv(d) && AllLawful(events) && Quiet(Run(d, h, events))
    ensures var after := Run(d, h, events);
            && UniqueIDs(after.keys.entries)
            && (forall id :: HasKey(after, id) <==> IsApproved(after.items, id) || id in after.orphans)
            && (forall id :: IsApproved(after.items, id) ==> P.RequestOf(after.items, id).value.keyID == KeyIDOf(id))
            && ((forall id :: HasKey(after, id) <==> IsApproved(after.items, id)) <==> after.orphans == {})
  {
    RunKeepsInv(d, h, events);
    hide UniqueIDs, HasKey, IsApproved, KeyIDOf, P.RequestOf;
    var after := Run(d, h, events);
    forall id
      ensures HasKey(after, id) <==> IsApproved(after.items, id) || id in after.orphans
      ensures !(IsApproved(after.items, id) && id in after.orphans)
      ensures IsApproved(after.items, id) ==> P.RequestOf(after.items, id).value.keyID == KeyIDOf(id)
    {
      assert Accounted(after, id);
      assert forall who :: !Midway(after, who, id);
    }
    if after.orphans != {} {
      var id :| id in after.orphans;
      assert HasKey(after, id) && !IsApproved(after.items, id);
    }
  }

  /** A key is orphaned exactly by a rollback whose deletion could not be saved. */
  lemma OrphanedIff(d: Desk, h: Hasher, ev: Event)
    requires Inv(d)
    ensures Step(d, h, ev).orphans
         == if ev.Undo? && !ev.saves && PhaseOf(d, ev.who).Undoing? then d.orphans + {PhaseOf(d, ev.who).id} else d.orphans
  {
    hide UniqueIDs, IsApproved, P.RequestOf, ClientIDs;
    if ev.Undo? && PhaseOf(d, ev.who).Undoing? {
      var x := PhaseOf(d, ev.who).id;
      StoreStepClients(d.keys, h, KeyOp.Delete(KeyIDOf(x)), ev.saves);
      assert Accounted(d, x);
      assert Midway(d, ev.who, x);
    }
  }

  /** So while every rollback is saved, keys and approvals match at rest. */
  lemma {:induction false} NoOrphansWhileUndosSave(d: Desk, h: Hasher, events: seq<Event>)
    requires Inv(d) && AllLawful(events) && d.orphans == {}
    requires forall k :: 0 <= k < |events| && events[k].Undo? ==> events[k].saves
    ensures Run(d, h, events).orphans == {}
    decreases |events|
  {
    hide Inv, Step, Lawful;
    if events != [] {
      OrphanedIff(d, h, events[0]);
      StepKeepsInv(d, h, events[0]);
      NoOrphansWhileUndosSave(Step(d, h, events[0]), h, events[1..]);
    }
  }

  /** However the reviewers interleave, a decided request never changes again. */
  lemma {:induction false} DecisionsAreFinal(d: Desk, h: Hasher, events: seq<Event>)
    ensures P.Evolved(d.items, Run(d, h, events).items)
    decreases |events|
  {
    hide P.Evolved;
    if events == [] {
      P.RunEvolves(d.items, []);
    } else {
      var next := Step(d, h, events[0]);
      DeskStepEvolves(d, h, events[0]);
      DecisionsAreFinal(next, h, events[1..]);
      P.EvolvedTransitive(d.items, next.items, Run(d, h, events).items);
    }
  }

  lemma DeskStepEvolves(d: Desk, h: Hasher, ev: Event)
    ensures P.Evolved(d.items, Step(d, h, ev).items)
  {
    hide P.Evolved, P.AfterDecision;
    P.RunEvolves(d.items, []);
    match ev
    case Record(who, deciderID, now, saves) =>
      if PhaseOf(d, who).Minted? {
        P.StepEvolves(d.items, P.Decide(Approve(PhaseOf(d, who).id, deciderID, now), saves));
      }
    case Reject(id, deciderID, now, saves) =>
      P.StepEvolves(d.items, P.Decide(P.Decision(id, P.REJECTED, deciderID, "", now), saves));
    case Submit(request, saves) => P.StepEvolves(d.items, P.Add(request, saves));
    case _ =>
  }

  /** Two reviewers may both have read a request as pending; the second to mint is then refused the
      client ID, and returns without a decision. */
  lemma SecondMintIsRefused(d: Desk, h: Hasher, first: Event, second: Event)
    requires first.Mint? && second.Mint? && first.who != second.who && first.saves
    requires PhaseOf(d, first.who).Got? && PhaseOf(d, second.who) == PhaseOf(d, first.who)
    requires UniqueIDs(d.keys.entries) && !HasKey(d, PhaseOf(d, first.who).id)
    ensures var once := Step(d, h, first); var twice := Step(once, h, second);
            && PhaseOf(once, first.who) == Minted(PhaseOf(d, first.who).id)
            && twice.keys == once.keys
            && PhaseOf(twice, second.who) == Idle
            && Failure(once.keys.entries, h, MintOp(PhaseOf(d, first.who).id, second.raw, second.now), second.saves)
               == Some(ClientExists)
  {
    hide UniqueIDs, ClientIDs;
    var id := PhaseOf(d, first.who).id;
    StoreStepClients(d.keys, h, MintOp(id, first.raw, first.now), true);
    var once := Step(d, h, first);
    StoreStepClients(once.keys, h, MintOp(id, second.raw, second.now), second.saves);
    ExistsIffClient(once.keys.entries, h, MintOp(id, second.raw, second.now), second.saves);
  }

  /** Whatever happened before: minting is refused the client ID, saved or not, exactly when the request is
      approved, another reviewer is midway with it, or its key was orphaned. */
  lemma MintRefusedIff(d: Desk, h: Hasher, events: seq<Event>, ev: Event)
    requires Inv(d) && AllLawful(events) && ev.Mint? && PhaseOf(Run(d, h, events), ev.who).Got?
    ensures var now := Run(d, h, events); var id := PhaseOf(now, ev.who).id;
            Failure(now.keys.entries, h, MintOp(id, ev.raw, ev.now), ev.saves) == Some(ClientExists) <==>
            IsApproved(now.items, id) || id in now.orphans || SomeoneMidway(now, id)
  {
    RunKeepsInv(d, h, events);
    hide UniqueIDs, IsApproved, P.RequestOf, ClientIDs, Run;
    var now := Run(d, h, events);
    var id := PhaseOf(now, ev.who).id;
    assert Accounted(now, id);
    ExistsIffClient(now.keys.entries, h, MintOp(id, ev.raw, ev.now), ev.saves);
  }

  lemma ExistsIffClient(es: Entries, h: Hasher, op: KeyOp, saves: bool)
    requires op.Create?
    ensures Failure(es, h, op, saves) == Some(ClientExists) <==> op.id in ClientIDs(es)
  {
  }

  /** From empty stores to an orphan in five steps: a request is approved by one reviewer, the decision is
      not saved, and neither is the deletion of the key. */
  lemma OrphanRun(h: Hasher, request: P.Request, raw: RawKey, now: Instant)
    requires request.status == P.PENDING
    ensures var start := Desk([], Stored([], []), map[], {});
            var run := [Submit(request, true), Get(0, request.id), Mint(0, raw, now, true),
                        Record(0, "admin", now, false), Undo(0, false)];
            var end := Run(start, h, run);
            && Inv(start) && AllLawful(run) && Quiet(end)
            && HasKey(end, request.id) && !IsApproved(end.items, request.id) && end.orphans == {request.id}
  {
    hide UniqueIDs, NewEntry, KeyIDOf;
    var start := Desk([], Stored([], []), map[], {});
    var id := request.id;
    StartIsAccounted([], Stored([], [])) by { NoEntries(); }
    var e0, e1, e2 := Submit(request, true), Get(0, id), Mint(0, raw, now, true);
    var e3, e4 := Record(0, "admin", now, false), Undo(0, false);
    FiveSteps(start, h, e0, e1, e2, e3, e4);
    var d1 := Step(start, h, e0);
    P.AddedRequestIsFound([], request, id);
    NothingRequested();
    var d2 := Step(d1, h, e1);
    assert d2.phases == map[0 := Got(id)];
    NoEntries();
    StoreStepClients(d2.keys, h, MintOp(id, raw, now), true);
    var d3 := Step(d2, h, e2);
    assert d3.phases == map[0 := Minted(id)];
    var d4 := Step(d3, h, e3);
    StatusesDiffer();
    assert d4.phases == map[0 := Undoing(id)] && d4.items == d1.items;
    StoreStepClients(d4.keys, h, KeyOp.Delete(KeyIDOf(id)), false);
    var d5 := Step(d4, h, e4);
    assert d5.phases == map[0 := Idle];
  }

  lemma NoEntries()
    ensures UniqueIDs([]) && ClientIDs([]) == {}
  {
  }

  lemma FiveSteps(d: Desk, h: Hasher, e0: Event, e1: Event, e2: Event, e3: Event, e4: Event)
    ensures Run(d, h, [e0, e1, e2, e3, e4])
         == Step(Step(Step(Step(Step(d, h, e0), h, e1), h, e2), h, e3), h, e4)
  {
    hide Step;
    var d1 := Step(d, h, e0);
    var d2 := Step(d1, h, e1);
    var d3 := Step(d2, h, e2);
    var d4 := Step(d3, h, e3);
    assert [e0, e1, e2, e3, e4][1..] == [e1, e2, e3, e4] && [e1, e2, e3, e4][1..] == [e2, e3, e4];
    assert [e2, e3, e4][1..] == [e3, e4] && [e3, e4][1..] == [e4] && [e4][1..] == [];
    assert Run(d4, h, [e4]) == Step(d4, h, e4);
    assert Run(d3, h, [e3, e4]) == Run(d4, h, [e4]);
    assert Run(d2, h, [e2, e3, e4]) == Run(d3, h, [e3, e4]);
    assert Run(d1, h, [e1, e2, e3, e4]) == Run(d2, h, [e2, e3, e4]);
  }

  // ---------- a request that is approved ----------

  /** Adding a request is a lawful Submit. */
  lemma AddIsLawful(id: string, email: string, company: string, use: string, now: Instant, addr: string, saves: bool)
    ensures Lawful(Submit(P.NewRequest(id, email, company, use, now, addr), saves))
  {
  }

  // ---------- the handlers ----------

  /** The four steps of one reviewer with nobody in between. */
  function ApproveAlone(d: Desk, h: Hasher, who: Reviewer, id: string, raw: RawKey, deciderID: string, now: Instant,
                        saves: (bool, bool, bool)): Desk
  {
    var got := Step(d, h, Get(who, id));
    var minted := Step(got, h, Mint(who, raw, now, saves.0));
    var recorded := Step(minted, h, Record(who, deciderID, now, saves.1));
    Step(recorded, h, Undo(who, saves.2))
  }

  function Fresh(items: P.Requests, keys: Stored): Desk {
    Desk(items, keys, map[], {})
  }

  /** Answers with an HTTP status; the parts of saves say whether the mint, the decision and the
      rollback reach their files. */
  method HandleApprovePending(pending: P.PendingKeyStore, keys: ManagedKeyStore, id: string, raw: RawKey,
                              deciderID: string, now: Instant, saves: (bool, bool, bool))
    returns (code: int)
    requires pending.Valid() && keys.Valid() && Opened(keys.entries[..], keys.hasher, raw).None?
    modifies pending, keys
    ensures pending.Valid() && keys.Valid()
    ensures id == "" ==> code == 400 && pending.items == old(pending.items) && keys.Held() == old(keys.Held())
    ensures id != "" ==>
              var d := Fresh(old(pending.items), old(keys.Held()));
              var after := ApproveAlone(d, keys.hasher, 0, id, raw, deciderID, now, saves);
              pending.items == after.items && keys.Held() == after.keys
    ensures id != "" ==>
              var r := P.RequestOf(old(pending.items), id);
              var taken := exists i :: 0 <= i < |old(keys.entries[..])| && old(keys.entries[..])[i].id == "pending:" + id;
              code == if r.None? then 404
                      else if r.value.status != "pending" then 409
                      else if taken || !saves.0 || !saves.1 then 500
                      else 200
    ensures code == 200 ==>
              var r, e := P.RequestOf(pending.items, id), Opened(keys.entries[..], keys.hasher, raw);
              && r.Some? && r.value.status == "approved" && r.value.keyID == "pending:" + id
              && r.value.decidedAt == Some(now) && r.value.deciderID == deciderID
              && e.Some? && e.value.id == "pending:" + id && e.value.roles == ["reader"]
              && e.value.enabled && e.value.expiresAt == 0 && e.value.createdAt == now
  {
    hide Consistent, Opened, P.RequestOf, P.FindRequest, P.Decided, StoreStep, Failure, ManagedKeyStore.Valid;
    if id == "" {
      return 400;
    }
    ghost var d := Fresh(pending.items, keys.Held());
    ghost var h := keys.hasher;
    var req := pending.Get(id);
    if req.None? {
      return 404;
    }
    if req.value.status != P.PENDING {
      return 409;
    }
    FoundByItsID(pending.items, id);
    ghost var got := Step(d, h, Get(0, id));
    var clientID := PREFIX + req.value.id;
    var err := keys.Create(clientID, raw, ROLES, now, 0, saves.0);
    ghost var minted := Step(got, h, Mint(0, raw, now, saves.0));
    assert keys.Held() == minted.keys;
    if err.Some? {
      return 500;
    }
    MintShows(d.keys, h, id, raw, now, saves.0);
    ghost var items := pending.items;
    var decided := pending.Decide(req.value.id, P.APPROVED, deciderID, clientID, now, saves.1);
    ghost var recorded := Step(minted, h, Record(0, deciderID, now, saves.1));
    assert pending.items == recorded.items;
    if decided.Err? {
      var _ := keys.Delete(clientID, saves.2);
      return if decided.error == P.NotPending || decided.error == P.NotFound then 409 else 500;
    }
    DecisionShows(items, Approve(id, deciderID, now));
    code := 200;
  }

  /** What is found of a request once its decision is saved. */
  lemma DecisionShows(items: P.Requests, d: P.Decision)
    requires P.Refusal(items, d).None?
    ensures var was, now := P.RequestOf(items, d.id), P.RequestOf(P.AfterDecision(items, d, true), d.id);
            && was.Some? && now.Some?
            && now.value.status == d.status && now.value.decidedAt == Some(d.now) && now.value.deciderID == d.deciderID
            && now.value.keyID == (if d.status == "approved" then d.keyID else was.value.keyID)
  {
    P.DecisionChangesOne(items, d, true, d.id);
  }

  /** What the key opens once it was minted. */
  lemma MintShows(s: Stored, h: Hasher, id: string, raw: RawKey, now: Instant, saves: bool)
    requires Opened(s.entries, h, raw).None?
    ensures var op := MintOp(id, raw, now);
            Failure(s.entries, h, op, saves).None? ==>
              var e := Opened(StoreStep(s, h, op, saves).entries, h, raw);
              && e.Some? && e.value.id == "pending:" + id && e.value.roles == ["reader"]
              && e.value.enabled && e.value.expiresAt == 0 && e.value.createdAt == now
  {
    var op := MintOp(id, raw, now);
    if Apply(s.entries, h, op).Ok? {
      CreatedKeyOpens(s.entries, h, op);
    }
  }

  /** What a saved rejection leaves, or an unsaved one. */
  lemma RejectionShows(items: P.Requests, d: P.Decision, saves: bool)
    requires d.status == P.REJECTED
    ensures P.Refusal(items, d).None? && saves ==>
              var was, now := P.RequestOf(items, d.id), P.RequestOf(P.AfterDecision(items, d, saves), d.id);
              && was.Some? && now.Some? && now.value.status == "rejected"
              && now.value.decidedAt == Some(d.now) && now.value.deciderID == d.deciderID
              && now.value.keyID == was.value.keyID
    ensures forall other :: other != d.id || P.Refusal(items, d).Some? || !saves ==>
              P.RequestOf(P.AfterDecision(items, d, saves), other) == P.RequestOf(items, other)
  {
    hide P.RequestOf, P.AfterDecision, P.Refusal;
    forall other {
      P.DecisionChangesOne(items, d, saves, other);
    }
    StatusesDiffer();
    if P.Refusal(items, d).None? {
      DecisionShows(items, d);
    }
  }

  lemma FoundByItsID(items: P.Requests, id: string)
    requires P.RequestOf(items, id).Some?
    ensures P.RequestOf(items, id).value.id == id
  {
  }

  /** A request added under a new ID and approved next, every save going through, is answered with 200,
      and its key opens an enabled reader's entry; a rejection that comes later gets 409. */
  method AddThenApprove(pending: P.PendingKeyStore, keys: ManagedKeyStore, id: string, email: string, company: string,
                        use: string, addr: string, raw: RawKey, deciderID: string,
                        added: Instant, approved: Instant)
    returns (code: int, later: int)
    requires pending.Valid() && keys.Valid() && id != "" && P.RequestOf(pending.items, id).None?
    requires forall i :: 0 <= i < keys.entries.Length ==> keys.entries[i].id != "pending:" + id
    requires Opened(keys.entries[..], keys.hasher, raw).None?
    modifies pending, keys
    ensures pending.Valid() && keys.Valid()
    ensures code == 200 && later == 409
    ensures var r, e := P.RequestOf(pending.items, id), Opened(keys.entries[..], keys.hasher, raw);
            && r.Some? && r.value.status == "approved" && r.value.keyID == "pending:" + id
            && e.Some? && e.value.id == "pending:" + id && e.value.roles == ["reader"] && e.value.enabled
  {
    hide P.RequestOf, P.FindRequest, Opened, ManagedKeyStore.Valid, ApproveAlone, Step;
    P.AddedRequestIsFound(pending.items, P.NewRequest(id, email, company, use, added, addr), id);
    var _ := pending.Add(id, email, company, use, addr, added, true);
    code := HandleApprovePending(pending, keys, id, raw, deciderID, approved, (true, true, true));
    later := HandleRejectPending(pending, id, deciderID, approved, true);
  }

  method HandleRejectPending(pending: P.PendingKeyStore, id: string, deciderID: string, now: Instant, saves: bool)
    returns (code: int)
    requires pending.Valid()
    modifies pending
    ensures pending.Valid()
    ensures id == "" ==> code == 400 && pending.items == old(pending.items)
    ensures id != "" ==>
              && (forall d: Desk, h: Hasher :: d.items == old(pending.items) ==>
                    pending.items == Step(d, h, Reject(id, deciderID, now, saves)).items)
              && var r := P.RequestOf(old(pending.items), id);
                 code == if r.None? then 404 else if r.value.status != "pending" then 409 else if !saves then 500 else 200
    ensures code == 200 ==>
              var r := P.RequestOf(pending.items, id);
              && r.Some? && r.value.status == "rejected" && r.value.decidedAt == Some(now) && r.value.deciderID == deciderID
              && r.value.keyID == P.RequestOf(old(pending.items), id).value.keyID
    ensures forall other :: other != id || code != 200 ==>
              P.RequestOf(pending.items, other) == P.RequestOf(old(pending.items), other)
  {
    if id == "" {
      return 400;
    }
    hide P.FindRequest, P.Decided, StoreStep, Failure;
    RejectionShows(pending.items, P.Decision(id, P.REJECTED, deciderID, "", now), saves);
    var decided := pending.Decide(id, P.REJECTED, deciderID, "", now, saves);
    if decided.Err? {
      return if decided.error == P.NotFound then 404 else if decided.error == P.NotPending then 409 else 500;
    }
    code := 200;
  }
}
