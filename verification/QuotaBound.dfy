/** How far concurrent calls can overrun the per-signer quota of internal/mcp/tools_evm_write.go, whose
    check and increment are two steps. */
module QuotaBound {
  import opened Outcomes
  import opened SignerQuota
  import opened WriteRelay
  import P = Purge

  function AdmissionSlot(adm: Admission): Option<Slot> {
    if adm.tx.Some? then Some(Slot(adm.tx.value.signer, adm.ws)) else None
  }

  /** The counter a call was checked against and may still increment; none once its broadcast failed. */
  function PhaseSlot(p: Phase): Option<Slot> {
    match p
    case Admitted(adm) => AdmissionSlot(adm)
    case Sent(t) => if t.hash.Some? then AdmissionSlot(t.adm) else None
    case Uncounted(slot) => Some(slot)
  }

  /** Calls between their check and their increment. */
  function Holding(m: map<CallID, Phase>, slot: Slot): set<CallID> {
    set id | id in m && PhaseSlot(m[id]) == Some(slot)
  }

  /** Calls that were broadcast well and are not yet counted. */
  function UncountedFor(m: map<CallID, Phase>, slot: Slot): set<CallID> {
    set id | id in m && !m[id].Admitted? && PhaseSlot(m[id]) == Some(slot)
  }

  predicate IsSuccessFor(t: Attempt, slot: Slot) {
    PhaseSlot(Sent(t)) == Some(slot)
  }

  function SuccessesFor(attempts: seq<Attempt>, slot: Slot): nat {
    if |attempts| == 0 then 0
    else SuccessesFor(attempts[..|attempts| - 1], slot) + if IsSuccessFor(attempts[|attempts| - 1], slot) then 1 else 0
  }

  // ---------- what the counter counts ----------

  /** Counted, about to be counted, and lost: together the broadcasts that went well. */
  ghost predicate Settled(r: Relay, slot: Slot, start: nat) {
    CountOf(r.rows, slot) + |UncountedFor(r.inFlight, slot)| + r.lost[slot] == start + SuccessesFor(r.attempts, slot)
  }

  lemma UncountedAdmit(m: map<CallID, Phase>, id: CallID, adm: Admission, slot: Slot)
    requires id !in m
    ensures UncountedFor(m[id := Admitted(adm)], slot) == UncountedFor(m, slot)
  {
  }

  lemma UncountedSend(m: map<CallID, Phase>, id: CallID, t: Attempt, slot: Slot)
    requires id in m && m[id].Admitted?
    ensures |UncountedFor(m[id := Sent(t)], slot)| == |UncountedFor(m, slot)| + if IsSuccessFor(t, slot) then 1 else 0
  {
    assert UncountedFor(m[id := Sent(t)], slot) == UncountedFor(m, slot) + if IsSuccessFor(t, slot) then {id} else {};
  }

  lemma UncountedStays(m: map<CallID, Phase>, id: CallID, p: Phase, slot: Slot)
    requires id in m && !m[id].Admitted? && !p.Admitted? && PhaseSlot(p) == PhaseSlot(m[id])
    ensures UncountedFor(m[id := p], slot) == UncountedFor(m, slot)
  {
  }

  lemma UncountedDrop(m: map<CallID, Phase>, id: CallID, slot: Slot)
    requires id in m && !m[id].Admitted?
    ensures |UncountedFor(m - {id}, slot)| == |UncountedFor(m, slot)| - if PhaseSlot(m[id]) == Some(slot) then 1 else 0
  {
    if PhaseSlot(m[id]) == Some(slot) {
      assert UncountedFor(m, slot) == UncountedFor(m - {id}, slot) + {id};
    } else {
      assert UncountedFor(m - {id}, slot) == UncountedFor(m, slot);
    }
  }

  lemma BroadcastKeepsSettled(r: Relay, id: CallID, hash: Option<string>, slot: Slot, start: nat)
    requires Settled(r, slot, start)
    ensures Settled(BroadcastStep(r, id, hash), slot, start)
  {
    hide UncountedFor, CountOf;
    if id in r.inFlight && r.inFlight[id].Admitted? {
      var t := Attempt(id, r.inFlight[id].adm, hash);
      SuccessesGrow(r.attempts, t, slot);
      hide SuccessesFor;
      UncountedSend(r.inFlight, id, t, slot);
    }
  }

  lemma SuccessesGrow(attempts: seq<Attempt>, t: Attempt, slot: Slot)
    ensures SuccessesFor(attempts + [t], slot) == SuccessesFor(attempts, slot) + if IsSuccessFor(t, slot) then 1 else 0
  {
    assert (attempts + [t])[..|attempts|] == attempts;
  }

  lemma RecordKeepsSettled(r: Relay, cfg: Config, id: CallID, taken: bool, slot: Slot, start: nat)
    requires cfg.gates.quota && Settled(r, slot, start)
    ensures Settled(RecordStep(r, cfg, id, taken), slot, start)
  {
    hide UncountedFor, CountOf, SuccessesFor, RowOf;
    if id in r.inFlight && r.inFlight[id].Sent? {
      var p := PhaseSlot(r.inFlight[id]);
      if p.Some? {
        UncountedStays(r.inFlight, id, Uncounted(p.value), slot);
      } else {
        UncountedDrop(r.inFlight, id, slot);
      }
    }
  }

  lemma StepKeepsSettled(r: Relay, cfg: Config, ev: Event, slot: Slot, start: nat)
    requires cfg.gates.quota && r.inFlight.Keys <= r.passed && Settled(r, slot, start)
    ensures Settled(Step(r, cfg, ev), slot, start)
  {
    hide UncountedFor, Resolved, FirstCheck, CauseOf, BroadcastStep, RecordStep, SuccessesFor;
    match ev
    case Check(id, call, answers) =>
      if id !in r.passed && FirstCheck(call).None? && Resolved(cfg, call, r.rows, answers).Ok? {
        UncountedAdmit(r.inFlight, id, Resolved(cfg, call, r.rows, answers).value, slot);
      }
    case Broadcast(id, hash) => BroadcastKeepsSettled(r, id, hash, slot, start);
    case Record(id, taken) => RecordKeepsSettled(r, cfg, id, taken, slot, start);
    case Increment(id, counted) =>
      if id in r.inFlight && r.inFlight[id].Uncounted? {
        UncountedDrop(r.inFlight, id, slot);
      }
  }

  lemma StepKeepsKeys(r: Relay, cfg: Config, ev: Event)
    requires r.inFlight.Keys <= r.passed
    ensures Step(r, cfg, ev).inFlight.Keys <= Step(r, cfg, ev).passed
  {
    hide Resolved, FirstCheck, CauseOf, RowOf;
  }

  /** In every interleaving a failed broadcast consumes no quota, and a success is counted once, unless
      its increment is still to come or was lost. */
  lemma {:induction false} QuotaCountsSuccesses(r: Relay, cfg: Config, events: seq<Event>, slot: Slot, start: nat)
    requires cfg.gates.quota && r.inFlight.Keys <= r.passed && Settled(r, slot, start)
    ensures Settled(Run(r, cfg, events), slot, start)
    decreases |events|
  {
    hide Step, Settled;
    if events != [] {
      StepKeepsSettled(r, cfg, events[0], slot, start);
      StepKeepsKeys(r, cfg, events[0]);
      QuotaCountsSuccesses(Step(r, cfg, events[0]), cfg, events[1..], slot, start);
    }
  }

  // ---------- the bound ----------

  /** At most k calls are between check and increment of the counter, at every point of the run. */
  ghost predicate AtMost(r: Relay, cfg: Config, events: seq<Event>, slot: Slot, k: nat)
    decreases |events|
  {
    && |Holding(r.inFlight, slot)| <= k
    && (events != [] ==> AtMost(Step(r, cfg, events[0]), cfg, events[1..], slot, k))
  }

  function Load(r: Relay, slot: Slot): nat {
    CountOf(r.rows, slot) + |Holding(r.inFlight, slot)|
  }

  lemma HoldingAdmit(m: map<CallID, Phase>, id: CallID, adm: Admission, slot: Slot)
    requires id !in m
    ensures |Holding(m[id := Admitted(adm)], slot)|
         == |Holding(m, slot)| + if PhaseSlot(Admitted(adm)) == Some(slot) then 1 else 0
  {
    assert Holding(m[id := Admitted(adm)], slot)
        == Holding(m, slot) + if PhaseSlot(Admitted(adm)) == Some(slot) then {id} else {};
  }

  lemma HoldingStays(m: map<CallID, Phase>, id: CallID, p: Phase, slot: Slot)
    requires id in m && PhaseSlot(m[id]) == PhaseSlot(p)
    ensures Holding(m[id := p], slot) == Holding(m, slot)
  {
  }

  lemma HoldingEnds(m: map<CallID, Phase>, id: CallID, p: Phase, slot: Slot)
    requires id in m && PhaseSlot(p) == None
    ensures |Holding(m[id := p], slot)| <= |Holding(m, slot)|
  {
    SubsetSize(Holding(m[id := p], slot), Holding(m, slot));
  }

  lemma HoldingDrop(m: map<CallID, Phase>, id: CallID, slot: Slot)
    requires id in m
    ensures |Holding(m - {id}, slot)| == |Holding(m, slot)| - if PhaseSlot(m[id]) == Some(slot) then 1 else 0
  {
    if PhaseSlot(m[id]) == Some(slot) {
      assert Holding(m, slot) == Holding(m - {id}, slot) + {id};
    } else {
      assert Holding(m - {id}, slot) == Holding(m, slot);
    }
  }

  /** A keyless call is admitted against the counter it will increment: below the rate, or unanswered. */
  lemma AdmittedBelowRate(cfg: Config, call: Call, rows: Counters, a: Answers)
    requires cfg.keylessWrites && cfg.gates.quota && Resolved(cfg, call, rows, a).Ok?
    ensures var adm := Resolved(cfg, call, rows, a).value;
            && adm.tx.Some?
            && adm.ws == WindowStart(a.now, cfg.gates.window)
            && (a.counted ==> CountOf(rows, Slot(adm.tx.value.signer, adm.ws)) < cfg.gates.rate)
  {
  }

  lemma StepBoundsLoad(r: Relay, cfg: Config, ev: Event, slot: Slot, k: nat, bound: int)
    requires cfg.keylessWrites && cfg.gates.quota && r.inFlight.Keys <= r.passed
    requires cfg.gates.rate - 1 + k <= bound && Load(r, slot) <= bound + r.failedOpen[slot]
    requires |Holding(Step(r, cfg, ev).inFlight, slot)| <= k
    ensures Load(Step(r, cfg, ev), slot) <= bound + Step(r, cfg, ev).failedOpen[slot]
  {
    hide Holding, Resolved, FirstCheck, CauseOf, RowOf;
    match ev
    case Check(id, call, answers) =>
      if id !in r.passed && FirstCheck(call).None? && Resolved(cfg, call, r.rows, answers).Ok? {
        AdmittedBelowRate(cfg, call, r.rows, answers);
        HoldingAdmit(r.inFlight, id, Resolved(cfg, call, r.rows, answers).value, slot);
      }
    case Broadcast(id, hash) =>
      if id in r.inFlight && r.inFlight[id].Admitted? {
        var p := Sent(Attempt(id, r.inFlight[id].adm, hash));
        if hash.Some? {
          HoldingStays(r.inFlight, id, p, slot);
        } else {
          HoldingEnds(r.inFlight, id, p, slot);
        }
      }
    case Record(id, taken) =>
      if id in r.inFlight && r.inFlight[id].Sent? {
        var s := PhaseSlot(r.inFlight[id]);
        if s.Some? {
          HoldingStays(r.inFlight, id, Uncounted(s.value), slot);
        } else {
          HoldingDrop(r.inFlight, id, slot);
        }
      }
    case Increment(id, counted) =>
      if id in r.inFlight && r.inFlight[id].Uncounted? {
        HoldingDrop(r.inFlight, id, slot);
      }
  }

  lemma {:induction false} RunBoundsLoad(r: Relay, cfg: Config, events: seq<Event>, slot: Slot, k: nat, bound: int)
    requires cfg.keylessWrites && cfg.gates.quota && r.inFlight.Keys <= r.passed
    requires cfg.gates.rate - 1 + k <= bound && Load(r, slot) <= bound + r.failedOpen[slot]
    requires AtMost(r, cfg, events, slot, k)
    ensures Load(Run(r, cfg, events), slot) <= bound + Run(r, cfg, events).failedOpen[slot]
    decreases |events|
  {
    hide Step, Load, Holding;
    if events != [] {
      StepBoundsLoad(r, cfg, events[0], slot, k, bound);
      StepKeepsKeys(r, cfg, events[0]);
      RunBoundsLoad(Step(r, cfg, events[0]), cfg, events[1..], slot, k, bound);
    }
  }

  /** The exact ceiling. With at most k calls of a signer and window between check and increment, the
      stored count stays at or below rate + k - 1, plus one for every check the store left unanswered
      while failing open; so at or below the rate when calls are sequential. The broadcasts that went
      well exceed what was counted by the lost increments at most. */
  lemma QuotaCeiling(rows: Counters, cfg: Config, events: seq<Event>, slot: Slot, k: nat)
    requires cfg.keylessWrites && cfg.gates.quota
    requires AtMost(Started(rows), cfg, events, slot, k)
    ensures var after := Run(Started(rows), cfg, events);
            var ceiling := Max(CountOf(rows, slot), cfg.gates.rate + k - 1) + after.failedOpen[slot];
            && CountOf(after.rows, slot) <= ceiling
            && CountOf(rows, slot) + SuccessesFor(after.attempts, slot) <= ceiling + after.lost[slot]
  {
    hide Step;
    var start := Started(rows);
    RunBoundsLoad(start, cfg, events, slot, k, Max(CountOf(rows, slot), cfg.gates.rate + k - 1));
    assert UncountedFor(start.inFlight, slot) == {};
    QuotaCountsSuccesses(start, cfg, events, slot, CountOf(rows, slot));
    var after := Run(start, cfg, events);
    SubsetSize(UncountedFor(after.inFlight, slot), Holding(after.inFlight, slot));
  }

  /** The quota store answers every check and takes every increment. */
  ghost predicate StoreAnswers(events: seq<Event>) {
    forall i :: 0 <= i < |events| ==>
      (events[i].Check? ==> events[i].answers.counted) && (events[i].Increment? ==> events[i].counted)
  }

  lemma {:induction false} NothingIsLost(r: Relay, cfg: Config, events: seq<Event>)
    requires StoreAnswers(events)
    ensures Run(r, cfg, events).failedOpen == r.failedOpen && Run(r, cfg, events).lost == r.lost
    decreases |events|
  {
    hide Resolved, FirstCheck, CauseOf, RowOf, Incremented;
    if events != [] {
      NothingIsLost(Step(r, cfg, events[0]), cfg, events[1..]);
    }
  }

  /** Broadcasts of a signer's calls of one window that the node answered with a hash. */
  function SuccessIndices(attempts: seq<Attempt>, slot: Slot): set<nat> {
    set i: nat | i < |attempts| && attempts[i].hash.Some? && attempts[i].adm.tx.Some?
                 && attempts[i].adm.tx.value.signer == slot.signer && attempts[i].adm.ws == slot.windowStart
  }

  lemma {:induction false} SuccessesAreIndices(attempts: seq<Attempt>, slot: Slot)
    ensures SuccessesFor(attempts, slot) == |SuccessIndices(attempts, slot)|
  {
    if |attempts| == 0 {
      assert SuccessIndices(attempts, slot) == {};
    } else {
      var last := |attempts| - 1;
      SuccessesAreIndices(attempts[..last], slot);
      assert SuccessIndices(attempts, slot)
          == SuccessIndices(attempts[..last], slot) + if IsSuccessFor(attempts[last], slot) then {last} else {};
    }
  }

  /** While the quota store answers, the ceiling holds without exceptions, and at rest the counter has grown by
      exactly the broadcasts that went well. */
  lemma AnsweredCeiling(rows: Counters, cfg: Config, events: seq<Event>, slot: Slot, k: nat)
    requires cfg.keylessWrites && cfg.gates.quota && StoreAnswers(events)
    requires AtMost(Started(rows), cfg, events, slot, k)
    ensures var before, after := (if slot in rows then rows[slot] else 0), Run(Started(rows), cfg, events);
            && before + |SuccessIndices(after.attempts, slot)| <= Max(before, cfg.gates.rate + k - 1)
            && (after.inFlight == map[] ==>
                  (if slot in after.rows then after.rows[slot] else 0)
                  == before + |SuccessIndices(after.attempts, slot)|)
  {
    hide Step, SuccessIndices;
    var start, after := Started(rows), Run(Started(rows), cfg, events);
    QuotaCeiling(rows, cfg, events, slot, k);
    NothingIsLost(start, cfg, events);
    SuccessesAreIndices(after.attempts, slot);
    assert UncountedFor(start.inFlight, slot) == {};
    QuotaCountsSuccesses(start, cfg, events, slot, CountOf(rows, slot));
    if after.inFlight == map[] {
      assert UncountedFor(after.inFlight, slot) == {};
    }
  }

  // ---------- the ceiling is reached ----------

  /** Calls n to k - 1 are checked, one after the other. */
  function Checks(n: nat, k: nat, call: Call, a: Answers): seq<Event>
    decreases k - n
  {
    if n >= k then [] else [Check(n, call, a)] + Checks(n + 1, k, call, a)
  }

  /** Calls n to k - 1 are sent and counted. */
  function Finishes(n: nat, k: nat): seq<Event>
    decreases k - n
  {
    if n >= k then [] else [Broadcast(n, Some("")), Record(n, true), Increment(n, true)] + Finishes(n + 1, k)
  }

  function IDsFrom(n: nat, k: nat): (ids: set<CallID>)
    ensures forall i :: i in ids <==> n <= i < k
    ensures |ids| == if n < k then k - n else 0
    decreases k - n
  {
    if n >= k then {} else {n} + IDsFrom(n + 1, k)
  }

  /** Calls n to k - 1 are admitted and wait, all against one counter. */
  ghost predicate Racing(r: Relay, adm: Admission, n: nat, k: nat) {
    r.inFlight.Keys == IDsFrom(n, k) && forall id :: id in r.inFlight ==> r.inFlight[id] == Admitted(adm)
  }

  lemma RacingHolds(r: Relay, adm: Admission, n: nat, k: nat, slot: Slot)
    requires n <= k && Racing(r, adm, n, k) && PhaseSlot(Admitted(adm)) == Some(slot)
    ensures |Holding(r.inFlight, slot)| == k - n
  {
    assert Holding(r.inFlight, slot) == IDsFrom(n, k);
  }

  lemma {:induction false} RunAppends(r: Relay, cfg: Config, a: seq<Event>, b: seq<Event>, slot: Slot, k: nat)
    ensures Run(r, cfg, a + b) == Run(Run(r, cfg, a), cfg, b)
    ensures AtMost(r, cfg, a, slot, k) && AtMost(Run(r, cfg, a), cfg, b, slot, k) ==> AtMost(r, cfg, a + b, slot, k)
    decreases |a|
  {
    hide Step, Holding;
    if a == [] {
      assert a + b == b;
    } else {
      assert (a + b)[0] == a[0] && (a + b)[1..] == a[1..] + b;
      RunAppends(Step(r, cfg, a[0]), cfg, a[1..], b, slot, k);
    }
  }

  lemma {:induction false} AllAreAdmitted(
    r: Relay, cfg: Config, call: Call, a: Answers, adm: Admission, n: nat, k: nat, slot: Slot)
    requires n <= k && Racing(r, adm, 0, n) && r.passed == IDsFrom(0, n)
    requires PhaseSlot(Admitted(adm)) == Some(slot)
    requires FirstCheck(call).None? && Resolved(cfg, call, r.rows, a) == Ok(adm)
    ensures var after := Run(r, cfg, Checks(n, k, call, a));
            Racing(after, adm, 0, k) && after.rows == r.rows
    ensures AtMost(r, cfg, Checks(n, k, call, a), slot, k)
    decreases k - n
  {
    hide Resolved, FirstCheck, Holding, PhaseSlot, Racing, Step, AtMost, Run, Checks;
    RacingHolds(r, adm, 0, n, slot);
    if n < k {
      OneIsAdmitted(r, cfg, call, a, adm, n);
      AllAreAdmitted(Step(r, cfg, Check(n, call, a)), cfg, call, a, adm, n + 1, k, slot);
      UnfoldChecks(r, cfg, call, a, n, k, slot);
    } else {
      assert Checks(n, k, call, a) == [] by { NoMoreChecks(n, k, call, a); }
      NothingRuns(r, cfg, slot, k);
    }
  }

  lemma NoMoreChecks(n: nat, k: nat, call: Call, a: Answers)
    requires n >= k
    ensures Checks(n, k, call, a) == []
  {
  }

  lemma OneIsAdmitted(r: Relay, cfg: Config, call: Call, a: Answers, adm: Admission, n: nat)
    requires Racing(r, adm, 0, n) && r.passed == IDsFrom(0, n)
    requires FirstCheck(call).None? && Resolved(cfg, call, r.rows, a) == Ok(adm)
    ensures var next := Step(r, cfg, Check(n, call, a));
            Racing(next, adm, 0, n + 1) && next.passed == IDsFrom(0, n + 1) && next.rows == r.rows
  {
    hide Resolved, FirstCheck, Racing;
    var next := Step(r, cfg, Check(n, call, a));
    assert n !in IDsFrom(0, n);
    assert next.inFlight == r.inFlight[n := Admitted(adm)] && next.passed == r.passed + {n} && next.rows == r.rows;
    RacerJoins(r, next, adm, n);
  }

  lemma RacerJoins(r: Relay, next: Relay, adm: Admission, n: nat)
    requires Racing(r, adm, 0, n) && next.inFlight == r.inFlight[n := Admitted(adm)]
    ensures Racing(next, adm, 0, n + 1) && IDsFrom(0, n + 1) == IDsFrom(0, n) + {n}
  {
    hide IDsFrom;
    assert IDsFrom(0, n + 1) == IDsFrom(0, n) + {n};
  }

  lemma UnfoldChecks(r: Relay, cfg: Config, call: Call, a: Answers, n: nat, k: nat, slot: Slot)
    requires n < k
    ensures var next := Step(r, cfg, Check(n, call, a));
            && Run(r, cfg, Checks(n, k, call, a)) == Run(next, cfg, Checks(n + 1, k, call, a))
            && (AtMost(r, cfg, Checks(n, k, call, a), slot, k) <==>
                |Holding(r.inFlight, slot)| <= k && AtMost(next, cfg, Checks(n + 1, k, call, a), slot, k))
  {
    hide Step, Holding;
    assert Checks(n, k, call, a)[0] == Check(n, call, a) && Checks(n, k, call, a)[1..] == Checks(n + 1, k, call, a);
  }

  lemma {:induction false} AllAreCounted(r: Relay, cfg: Config, adm: Admission, n: nat, k: nat, slot: Slot)
    requires cfg.gates.quota && n <= k && Racing(r, adm, n, k)
    requires PhaseSlot(Admitted(adm)) == Some(slot)
    ensures CountOf(Run(r, cfg, Finishes(n, k)).rows, slot) == CountOf(r.rows, slot) + k - n
    ensures AtMost(r, cfg, Finishes(n, k), slot, k)
    decreases k - n
  {
    hide Holding, RowOf, AtMost, Racing, IDsFrom;
    RacingHolds(r, adm, n, k, slot);
    if n < k {
      var next := Finished(r, cfg, n);
      OneFinishes(r, cfg, adm, n, k, slot);
      AllAreCounted(next, cfg, adm, n + 1, k, slot);
      UnfoldFinishes(r, cfg, n, k, slot);
    } else {
      NothingRuns(r, cfg, slot, k);
    }
  }

  lemma NothingRuns(r: Relay, cfg: Config, slot: Slot, k: nat)
    requires |Holding(r.inFlight, slot)| <= k
    ensures Run(r, cfg, []) == r && AtMost(r, cfg, [], slot, k)
  {
  }

  /** Call n sent, written down and counted. */
  function Finished(r: Relay, cfg: Config, n: nat): Relay {
    Step(Step(Step(r, cfg, Broadcast(n, Some(""))), cfg, Record(n, true)), cfg, Increment(n, true))
  }

  lemma OneFinishes(r: Relay, cfg: Config, adm: Admission, n: nat, k: nat, slot: Slot)
    requires cfg.gates.quota && n < k && Racing(r, adm, n, k)
    requires PhaseSlot(Admitted(adm)) == Some(slot)
    ensures var sent := Step(r, cfg, Broadcast(n, Some("")));
            var recorded := Step(sent, cfg, Record(n, true));
            var next := Finished(r, cfg, n);
            && |Holding(sent.inFlight, slot)| == |Holding(recorded.inFlight, slot)| == |Holding(r.inFlight, slot)|
            && Racing(next, adm, n + 1, k)
            && CountOf(next.rows, slot) == CountOf(r.rows, slot) + 1
  {
    hide Holding, RowOf, Racing, IDsFrom;
    FirstRacer(r, adm, n, k);
    var t := Attempt(n, adm, Some(""));
    HoldingStays(r.inFlight, n, Sent(t), slot);
    var sent := Step(r, cfg, Broadcast(n, Some("")));
    assert sent.inFlight == r.inFlight[n := Sent(t)];
    HoldingStays(sent.inFlight, n, Uncounted(slot), slot);
    var recorded := Step(sent, cfg, Record(n, true));
    assert recorded.inFlight == sent.inFlight[n := Uncounted(slot)];
    var next := Step(recorded, cfg, Increment(n, true));
    assert next.inFlight == r.inFlight - {n};
    RacersLeft(r, next, adm, n, k);
  }

  lemma FirstRacer(r: Relay, adm: Admission, n: nat, k: nat)
    requires n < k && Racing(r, adm, n, k)
    ensures n in r.inFlight && r.inFlight[n] == Admitted(adm)
  {
    hide IDsFrom;
  }

  lemma RacersLeft(r: Relay, next: Relay, adm: Admission, n: nat, k: nat)
    requires n < k && Racing(r, adm, n, k) && next.inFlight == r.inFlight - {n}
    ensures Racing(next, adm, n + 1, k)
  {
    hide IDsFrom;
  }

  lemma UnfoldFinishes(r: Relay, cfg: Config, n: nat, k: nat, slot: Slot)
    requires n < k
    ensures var sent := Step(r, cfg, Broadcast(n, Some("")));
            var recorded := Step(sent, cfg, Record(n, true));
            var next := Finished(r, cfg, n);
            && Run(r, cfg, Finishes(n, k)) == Run(next, cfg, Finishes(n + 1, k))
            && (AtMost(r, cfg, Finishes(n, k), slot, k) <==>
                && |Holding(r.inFlight, slot)| <= k && |Holding(sent.inFlight, slot)| <= k
                && |Holding(recorded.inFlight, slot)| <= k
                && AtMost(next, cfg, Finishes(n + 1, k), slot, k))
  {
    hide Step, Holding;
    var all := Finishes(n, k);
    var one, two := all[1..], all[1..][1..];
    assert all[0] == Broadcast(n, Some("")) && one[0] == Record(n, true) && two[0] == Increment(n, true);
    assert two[1..] == Finishes(n + 1, k);
    var sent := Step(r, cfg, Broadcast(n, Some("")));
    var recorded := Step(sent, cfg, Record(n, true));
    assert Run(r, cfg, all) == Run(sent, cfg, one) == Run(recorded, cfg, two);
    assert AtMost(recorded, cfg, two, slot, k) <==>
           |Holding(recorded.inFlight, slot)| <= k && AtMost(Finished(r, cfg, n), cfg, two[1..], slot, k);
    assert AtMost(sent, cfg, one, slot, k) <==>
           |Holding(sent.inFlight, slot)| <= k && AtMost(recorded, cfg, two, slot, k);
  }

  /** The ceiling is no overestimate: k calls checked before any of them is counted take a counter from
      one below the rate to rate + k - 1. */
  lemma CeilingIsReached(rows: Counters, cfg: Config, call: Call, a: Answers, k: nat)
    requires cfg.keylessWrites && cfg.gates.quota && a.counted && call.hasRole && call.signedTx != ""
    requires Resolved(cfg, call, rows, a).Ok?
    requires CountOf(rows, SlotAt(cfg.gates, call.decoded.value.signer, a.now)) == cfg.gates.rate - 1
    ensures var slot := SlotAt(cfg.gates, call.decoded.value.signer, a.now);
            var race := Checks(0, k, call, a) + Finishes(0, k);
            && AtMost(Started(rows), cfg, race, slot, k)
            && CountOf(Run(Started(rows), cfg, race).rows, slot) == cfg.gates.rate + k - 1
  {
    assert FirstCheck(call).None?;
    hide FirstCheck, Holding, Step;
    var slot := SlotAt(cfg.gates, call.decoded.value.signer, a.now);
    var adm := Resolved(cfg, call, rows, a).value;
    var start := Started(rows);
    assert IDsFrom(0, 0) == {};
    AllAreAdmitted(start, cfg, call, a, adm, 0, k, slot);
    AllAreCounted(Run(start, cfg, Checks(0, k, call, a)), cfg, adm, 0, k, slot);
    RunAppends(start, cfg, Checks(0, k, call, a), Finishes(0, k), slot, k);
  }

  // ---------- with the purge of old counters in between ----------

  /** A step of a call, or a purge that takes some counters, and when it happens. The cutoff of a purge
      comes from a clock that was read before. */
  datatype Deed =
    | Do(ev: Event, at: Instant)
    | Purged(now: Instant, gone: set<Slot>, at: Instant)

  function Act(r: Relay, cfg: Config, x: Deed): Relay {
    match x
    case Do(ev, _) => Step(r, cfg, ev)
    case Purged(_, gone, _) => r.(rows := r.rows - gone)
  }

  function Acts(r: Relay, cfg: Config, deeds: seq<Deed>): Relay
    decreases |deeds|
  {
    if deeds == [] then r else Acts(Act(r, cfg, deeds[0]), cfg, deeds[1..])
  }

  /** The clock never goes back. A check reads it up to delay before it reads the counter, with a query to
      the blacklist in between; a purge takes only counters that its retention window selects. */
  ghost predicate Timely(x: Deed, t: Instant, retention: nat, delay: nat) {
    && t <= x.at
    && match x
       case Do(ev, at) => ev.Check? ==> at - delay <= ev.answers.now <= at
       case Purged(now, gone, at) =>
         && now <= at
         && forall s :: s in gone ==> P.Selects(P.AgeStatement(retention, now), P.Row(s.windowStart, ""))
  }

  ghost predicate Clocked(t: Instant, retention: nat, delay: nat, deeds: seq<Deed>)
    decreases |deeds|
  {
    deeds != [] ==> Timely(deeds[0], t, retention, delay) && Clocked(deeds[0].at, retention, delay, deeds[1..])
  }

  ghost predicate AtMostActs(r: Relay, cfg: Config, deeds: seq<Deed>, slot: Slot, k: nat)
    decreases |deeds|
  {
    && |Holding(r.inFlight, slot)| <= k
    && (deeds != [] ==> AtMostActs(Act(r, cfg, deeds[0]), cfg, deeds[1..], slot, k))
  }

  function AdmittedFor(m: map<CallID, Phase>, slot: Slot): set<CallID> {
    set id | id in m && m[id].Admitted? && PhaseSlot(m[id]) == Some(slot)
  }

  lemma HoldingSplits(m: map<CallID, Phase>, slot: Slot)
    ensures |Holding(m, slot)| == |AdmittedFor(m, slot)| + |UncountedFor(m, slot)|
  {
    assert Holding(m, slot) == AdmittedFor(m, slot) + UncountedFor(m, slot);
    assert AdmittedFor(m, slot) !! UncountedFor(m, slot);
  }

  /** The window of the counter is over, also for checks that have read the clock before. */
  predicate Over(cfg: Config, slot: Slot, t: Instant, delay: nat) {
    t >= slot.windowStart + cfg.gates.window + delay
  }

  /** Both ceilings hold, and the counter still counts everything unless its window is over. */
  ghost predicate Capped(r: Relay, cfg: Config, slot: Slot, start: nat, bound: int, t: Instant, delay: nat) {
    && r.inFlight.Keys <= r.passed
    && Load(r, slot) <= bound + r.failedOpen[slot]
    && start + SuccessesFor(r.attempts, slot) + |AdmittedFor(r.inFlight, slot)|
       <= bound + r.failedOpen[slot] + r.lost[slot]
    && (Settled(r, slot, start) || Over(cfg, slot, t, delay))
  }

  lemma SettledIsCapped(r: Relay, slot: Slot, start: nat, bound: int)
    requires Settled(r, slot, start) && Load(r, slot) <= bound + r.failedOpen[slot]
    ensures start + SuccessesFor(r.attempts, slot) + |AdmittedFor(r.inFlight, slot)|
            <= bound + r.failedOpen[slot] + r.lost[slot]
  {
    hide CountOf, SuccessesFor, Holding, UncountedFor, AdmittedFor;
    HoldingSplits(r.inFlight, slot);
  }

  lemma AdmittedGrows(m: map<CallID, Phase>, id: CallID, adm: Admission, slot: Slot)
    requires id !in m && PhaseSlot(Admitted(adm)) != Some(slot)
    ensures AdmittedFor(m[id := Admitted(adm)], slot) == AdmittedFor(m, slot)
  {
  }

  lemma AdmittedLeaves(m: map<CallID, Phase>, id: CallID, p: Phase, slot: Slot)
    requires id in m && !p.Admitted?
    ensures |AdmittedFor(m - {id}, slot)|
         == |AdmittedFor(m, slot)| - if m[id].Admitted? && PhaseSlot(m[id]) == Some(slot) then 1 else 0
    ensures AdmittedFor(m[id := p], slot) == AdmittedFor(m - {id}, slot)
  {
    if m[id].Admitted? && PhaseSlot(m[id]) == Some(slot) {
      assert AdmittedFor(m, slot) == AdmittedFor(m - {id}, slot) + {id};
    } else {
      assert AdmittedFor(m, slot) == AdmittedFor(m - {id}, slot);
    }
  }

  /** After its window a counter gets no new calls; those in flight succeed, fail or lose their increment. */
  lemma OverStep(r: Relay, cfg: Config, ev: Event, at: Instant, slot: Slot, t: Instant, retention: nat, delay: nat)
    requires cfg.keylessWrites && cfg.gates.quota && cfg.gates.window > 0
    requires r.inFlight.Keys <= r.passed && Over(cfg, slot, t, delay) && Timely(Do(ev, at), t, retention, delay)
    ensures var next := Step(r, cfg, ev);
            && SuccessesFor(next.attempts, slot) + |AdmittedFor(next.inFlight, slot)|
               <= SuccessesFor(r.attempts, slot) + |AdmittedFor(r.inFlight, slot)|
            && next.lost[slot] >= r.lost[slot] && next.failedOpen[slot] == r.failedOpen[slot]
  {
    hide AdmittedFor, SuccessesFor, Resolved, FirstCheck, CauseOf, RowOf, CountOf, Incremented, WindowStart;
    match ev
    case Check(id, call, answers) =>
      if id !in r.passed && FirstCheck(call).None? && Resolved(cfg, call, r.rows, answers).Ok? {
        AdmittedBelowRate(cfg, call, r.rows, answers);
        WindowStartIsLastBoundary(answers.now, cfg.gates.window, 0);
        AdmittedGrows(r.inFlight, id, Resolved(cfg, call, r.rows, answers).value, slot);
      }
    case Broadcast(id, hash) =>
      if id in r.inFlight && r.inFlight[id].Admitted? {
        var t := Attempt(id, r.inFlight[id].adm, hash);
        SuccessesGrow(r.attempts, t, slot);
        AdmittedLeaves(r.inFlight, id, Sent(t), slot);
      }
    case Record(id, taken) =>
      if id in r.inFlight && r.inFlight[id].Sent? {
        var s := PhaseSlot(r.inFlight[id]);
        AdmittedLeaves(r.inFlight, id, Uncounted(if s.Some? then s.value else slot), slot);
      }
    case Increment(id, counted) =>
      if id in r.inFlight && r.inFlight[id].Uncounted? {
        AdmittedLeaves(r.inFlight, id, r.inFlight[id], slot);
      }
  }

  lemma ActKeepsCapped(
    r: Relay, cfg: Config, x: Deed, slot: Slot, start: nat, bound: int, t: Instant, retention: nat, delay: nat, k: nat)
    requires cfg.keylessWrites && cfg.gates.quota && cfg.gates.window > 0 && retention >= cfg.gates.window - 1 + delay
    requires cfg.gates.rate - 1 + k <= bound
    requires Timely(x, t, retention, delay) && Capped(r, cfg, slot, start, bound, t, delay)
    requires |Holding(Act(r, cfg, x).inFlight, slot)| <= k
    ensures Capped(Act(r, cfg, x), cfg, slot, start, bound, x.at, delay)
  {
    match x
    case Do(ev, at) =>
      hide Settled, Load, Holding, AdmittedFor, SuccessesFor, Step;
      StepKeepsKeys(r, cfg, ev);
      StepBoundsLoad(r, cfg, ev, slot, k, bound);
      if Settled(r, slot, start) {
        StepKeepsSettled(r, cfg, ev, slot, start);
        SettledIsCapped(Step(r, cfg, ev), slot, start, bound);
      } else {
        OverStep(r, cfg, ev, at, slot, t, retention, delay);
      }
    case Purged(now, gone, at) =>
      hide Holding, UncountedFor, AdmittedFor, SuccessesFor;
  }

  lemma {:induction false} ActsKeepCapped(
    r: Relay, cfg: Config, deeds: seq<Deed>, slot: Slot, start: nat, bound: int, t: Instant, retention: nat, delay: nat,
    k: nat)
    returns (end: Instant)
    requires cfg.keylessWrites && cfg.gates.quota && cfg.gates.window > 0 && retention >= cfg.gates.window - 1 + delay
    requires cfg.gates.rate - 1 + k <= bound
    requires Clocked(t, retention, delay, deeds) && AtMostActs(r, cfg, deeds, slot, k)
    requires Capped(r, cfg, slot, start, bound, t, delay)
    ensures Capped(Acts(r, cfg, deeds), cfg, slot, start, bound, end, delay)
    decreases |deeds|
  {
    hide Act, Capped, Holding, Timely;
    if deeds != [] {
      var next := Act(r, cfg, deeds[0]);
      ActKeepsCapped(r, cfg, deeds[0], slot, start, bound, t, retention, delay, k);
      end := ActsKeepCapped(next, cfg, deeds[1..], slot, start, bound, deeds[0].at, retention, delay, k);
    } else {
      end := t;
    }
  }

  /** The ceiling holds with any purges in between, when they spare the counters of windows that a check may
      still have read. */
  lemma QuotaCeilingWithPurges(
    rows: Counters, cfg: Config, deeds: seq<Deed>, slot: Slot, k: nat, t: Instant, retention: nat, delay: nat)
    requires cfg.keylessWrites && cfg.gates.quota && cfg.gates.window > 0 && retention >= cfg.gates.window - 1 + delay
    requires Clocked(t, retention, delay, deeds) && AtMostActs(Started(rows), cfg, deeds, slot, k)
    ensures var after := Acts(Started(rows), cfg, deeds);
            var ceiling := Max(CountOf(rows, slot), cfg.gates.rate + k - 1) + after.failedOpen[slot];
            && CountOf(after.rows, slot) <= ceiling
            && CountOf(rows, slot) + SuccessesFor(after.attempts, slot) <= ceiling + after.lost[slot]
  {
    hide Act, Clocked, AtMostActs;
    var start, bound := Started(rows), Max(CountOf(rows, slot), cfg.gates.rate + k - 1);
    assert UncountedFor(start.inFlight, slot) == {} && Holding(start.inFlight, slot) == {};
    SettledIsCapped(start, slot, CountOf(rows, slot), bound);
    var end := ActsKeepCapped(start, cfg, deeds, slot, CountOf(rows, slot), bound, t, retention, delay, k);
  }

  lemma UnrollDeeds(r: Relay, cfg: Config, x: Deed, rest: seq<Deed>, t: Instant, retention: nat, delay: nat, slot: Slot)
    ensures Acts(r, cfg, [x] + rest) == Acts(Act(r, cfg, x), cfg, rest) && Acts(r, cfg, []) == r
    ensures Clocked(t, retention, delay, [x] + rest) <==>
            Timely(x, t, retention, delay) && Clocked(x.at, retention, delay, rest)
    ensures AtMostActs(r, cfg, [x] + rest, slot, 1) <==>
            |Holding(r.inFlight, slot)| <= 1 && AtMostActs(Act(r, cfg, x), cfg, rest, slot, 1)
    ensures AtMostActs(r, cfg, [], slot, 1) <==> |Holding(r.inFlight, slot)| <= 1
    ensures Clocked(t, retention, delay, [])
  {
    hide Act, Timely, Holding;
    assert ([x] + rest)[1..] == rest;
  }

  /** A call that is sent, written down and counted with no other in between. */
  function WholeCall(id: CallID, call: Call, a: Answers, at: Instant): seq<Deed> {
    [Do(Check(id, call, a), at), Do(Broadcast(id, Some("")), at), Do(Record(id, true), at), Do(Increment(id, true), at)]
  }

  lemma WholeCallRuns(r: Relay, cfg: Config, id: CallID, call: Call, a: Answers, at: Instant, t: Instant,
                      retention: nat, delay: nat, rest: seq<Deed>, slot: Slot)
    requires cfg.keylessWrites && cfg.gates.quota && a.counted && t <= at && at - delay <= a.now <= at
    requires r.inFlight == map[] && id !in r.passed && FirstCheck(call).None?
    requires Resolved(cfg, call, r.rows, a).Ok? && slot == SlotAt(cfg.gates, call.decoded.value.signer, a.now)
    ensures var next := Acts(r, cfg, WholeCall(id, call, a, at));
            && next.inFlight == map[] && next.passed == r.passed + {id} && next.rows == Incremented(r.rows, slot)
            && SuccessesFor(next.attempts, slot) == SuccessesFor(r.attempts, slot) + 1
            && (next.lost, next.failedOpen) == (r.lost, r.failedOpen)
            && Acts(r, cfg, WholeCall(id, call, a, at) + rest) == Acts(next, cfg, rest)
            && (AtMostActs(next, cfg, rest, slot, 1) ==> AtMostActs(r, cfg, WholeCall(id, call, a, at) + rest, slot, 1))
            && (Clocked(at, retention, delay, rest) ==> Clocked(t, retention, delay, WholeCall(id, call, a, at) + rest))
  {
    var e0, e1 := Do(Check(id, call, a), at), Do(Broadcast(id, Some("")), at);
    var e2, e3 := Do(Record(id, true), at), Do(Increment(id, true), at);
    var r1 := Act(r, cfg, e0);
    var r2 := Act(r1, cfg, e1);
    var r3 := Act(r2, cfg, e2);
    var r4 := Act(r3, cfg, e3);
    FourDeeds(r, cfg, e0, e1, e2, e3, rest, t, retention, delay, slot);
    hide Acts, Clocked, AtMostActs, FirstCheck;
    var adm := Resolved(cfg, call, r.rows, a).value;
    hide Resolved, RowOf, CauseOf, Incremented, SuccessesFor;
    var sent := Attempt(id, adm, Some(""));
    assert r1.inFlight == map[id := Admitted(adm)] && r2.inFlight == map[id := Sent(sent)];
    assert r3.inFlight == map[id := Uncounted(slot)] && r4.inFlight == map[];
    SuccessesGrow(r.attempts, sent, slot);
    AloneInFlight(r.inFlight, id, slot);
    AloneInFlight(r1.inFlight, id, slot);
    AloneInFlight(r2.inFlight, id, slot);
    AloneInFlight(r3.inFlight, id, slot);
  }

  lemma AloneInFlight(m: map<CallID, Phase>, id: CallID, slot: Slot)
    requires m.Keys <= {id}
    ensures |Holding(m, slot)| <= 1
  {
    SubsetSize(Holding(m, slot), {id});
  }

  lemma FourDeeds(r: Relay, cfg: Config, e0: Deed, e1: Deed, e2: Deed, e3: Deed, rest: seq<Deed>, t: Instant,
                  retention: nat, delay: nat, slot: Slot)
    ensures var r1 := Act(r, cfg, e0); var r2 := Act(r1, cfg, e1); var r3 := Act(r2, cfg, e2); var r4 := Act(r3, cfg, e3);
            && Acts(r, cfg, [e0, e1, e2, e3]) == r4
            && Acts(r, cfg, [e0, e1, e2, e3] + rest) == Acts(r4, cfg, rest)
            && (AtMostActs(r, cfg, [e0, e1, e2, e3] + rest, slot, 1) <==>
                && |Holding(r.inFlight, slot)| <= 1 && |Holding(r1.inFlight, slot)| <= 1
                && |Holding(r2.inFlight, slot)| <= 1 && |Holding(r3.inFlight, slot)| <= 1
                && AtMostActs(r4, cfg, rest, slot, 1))
            && (Clocked(t, retention, delay, [e0, e1, e2, e3] + rest) <==>
                && Timely(e0, t, retention, delay) && Timely(e1, e0.at, retention, delay)
                && Timely(e2, e1.at, retention, delay) && Timely(e3, e2.at, retention, delay)
                && Clocked(e3.at, retention, delay, rest))
  {
    hide *;
    var r1 := Act(r, cfg, e0);
    var r2 := Act(r1, cfg, e1);
    var r3 := Act(r2, cfg, e2);
    var r4 := Act(r3, cfg, e3);
    assert [e0, e1, e2, e3] + rest == [e0] + ([e1] + ([e2] + ([e3] + rest)));
    assert [e0, e1, e2, e3] == [e0] + ([e1] + ([e2] + ([e3] + [])));
    UnrollDeeds(r, cfg, e0, [e1] + ([e2] + ([e3] + rest)), t, retention, delay, slot);
    UnrollDeeds(r1, cfg, e1, [e2] + ([e3] + rest), e0.at, retention, delay, slot);
    UnrollDeeds(r2, cfg, e2, [e3] + rest, e1.at, retention, delay, slot);
    UnrollDeeds(r3, cfg, e3, rest, e2.at, retention, delay, slot);
    UnrollDeeds(r, cfg, e0, [e1] + ([e2] + ([e3] + [])), t, retention, delay, slot);
    UnrollDeeds(r1, cfg, e1, [e2] + ([e3] + []), e0.at, retention, delay, slot);
    UnrollDeeds(r2, cfg, e2, [e3] + [], e1.at, retention, delay, slot);
    UnrollDeeds(r3, cfg, e3, [], e2.at, retention, delay, slot);
    UnrollDeeds(r4, cfg, e3, [], e3.at, retention, delay, slot);
  }

  /** The run that breaks it: one call brings the counter to the rate, a purge takes the counter as soon as it
      may, and a call that has read the clock in the same quota window is let through again. */
  function BreakingRun(cfg: Config, call: Call, ban: BanAnswer, retention: nat): seq<Deed>
    requires call.decoded.Some?
  {
    var late := retention + 1;
    var slot := Slot(call.decoded.value.signer, 0);
    WholeCall(0, call, Answers(0, ban, true), 0)
    + ([Purged(late, {slot}, late)]
       + (WholeCall(1, call, Answers(Min(late, cfg.gates.window - 1), ban, true), late) + []))
  }

  /** Every shorter retention window breaks the ceiling, with never two calls at a time. */
  lemma ShortRetentionBreaksCeiling(cfg: Config, call: Call, ban: BanAnswer, retention: nat, delay: nat)
    requires cfg.keylessWrites && cfg.gates.quota && cfg.gates.window > 0 && cfg.gates.rate >= 1
    requires 1 <= retention < cfg.gates.window - 1 + delay
    requires call.hasRole && call.signedTx != "" && call.decoded.Some? && cfg.anchor.Some?
    requires call.decoded.value.to == cfg.anchor && call.decoded.value.value in {None, Some(0)}
    requires cfg.gates.blacklist ==> ban == NotBanned || (ban == BanUnknown && cfg.gates.blacklistFailOpen)
    ensures var slot := Slot(call.decoded.value.signer, 0);
            var rows: Counters := map[slot := cfg.gates.rate - 1];
            var after := Acts(Started(rows), cfg, BreakingRun(cfg, call, ban, retention));
            && Clocked(0, retention, delay, BreakingRun(cfg, call, ban, retention))
            && AtMostActs(Started(rows), cfg, BreakingRun(cfg, call, ban, retention), slot, 1)
            && (after.lost[slot], after.failedOpen[slot]) == (0, 0)
            && CountOf(rows, slot) + SuccessesFor(after.attempts, slot) == cfg.gates.rate + 1
  {
    hide Resolved, Acts, Clocked, AtMostActs, WholeCall, Holding, WindowStart;
    assert FirstCheck(call).None?;
    hide FirstCheck;
    var slot, late := Slot(call.decoded.value.signer, 0), retention + 1;
    var rows: Counters := map[slot := cfg.gates.rate - 1];
    var read := Min(late, cfg.gates.window - 1);
    var a0, a1 := Answers(0, ban, true), Answers(read, ban, true);
    SlotOfEarlyCalls(cfg, call.decoded.value.signer, 0);
    SlotOfEarlyCalls(cfg, call.decoded.value.signer, read);
    var purge := Purged(late, {slot}, late);
    var last := WholeCall(1, call, a1, late) + [];
    var r0 := Started(rows);
    UnderRateIsAdmitted(cfg, call, rows, a0);
    var r1 := Acts(r0, cfg, WholeCall(0, call, a0, 0));
    WholeCallRuns(r0, cfg, 0, call, a0, 0, 0, retention, delay, [purge] + last, slot);
    var r2 := Act(r1, cfg, purge);
    UnrollDeeds(r1, cfg, purge, last, 0, retention, delay, slot);
    UnderRateIsAdmitted(cfg, call, r2.rows, a1);
    WholeCallRuns(r2, cfg, 1, call, a1, late, late, retention, delay, [], slot);
    var r3 := Acts(r2, cfg, WholeCall(1, call, a1, late));
    UnrollDeeds(r3, cfg, purge, [], late, retention, delay, slot);
    AloneInFlight(r1.inFlight, 0, slot);
    AloneInFlight(r3.inFlight, 0, slot);
  }

  lemma SlotOfEarlyCalls(cfg: Config, signer: Address, now: Instant)
    requires 0 <= now < cfg.gates.window
    ensures SlotAt(cfg.gates, signer, now) == Slot(signer, 0)
  {
  }

  lemma UnderRateIsAdmitted(cfg: Config, call: Call, rows: Counters, a: Answers)
    requires cfg.keylessWrites && a.counted && call.decoded.Some? && cfg.anchor.Some?
    requires call.decoded.value.to == cfg.anchor && call.decoded.value.value in {None, Some(0)}
    requires cfg.gates.blacklist ==> a.ban == NotBanned || (a.ban == BanUnknown && cfg.gates.blacklistFailOpen)
    requires CountOf(rows, SlotAt(cfg.gates, call.decoded.value.signer, a.now)) < cfg.gates.rate
    ensures Resolved(cfg, call, rows, a).Ok?
  {
    AdmittedIff(cfg, call, rows, a);
    hide Resolved;
  }
}
