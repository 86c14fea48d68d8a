/** Where what the relay does comes from: every call it rejects or sends was checked, in the run, for a caller
    with a writer role and some text. */
module RelayTrace {
  import opened Outcomes
  import opened SignerQuota
  import opened WriteRelay

  /** A check of call id that gets past its first two tests: a writer role, and a text to send. */
  predicate IsServed(ev: Event, id: CallID) {
    ev.Check? && ev.id == id && ev.call.hasRole && ev.call.signedTx != ""
  }

  ghost predicate Served(events: seq<Event>, id: CallID) {
    exists k :: 0 <= k < |events| && IsServed(events[k], id)
  }

  lemma ServedFirst(ev: Event, rest: seq<Event>, id: CallID)
    ensures Served([ev] + rest, id) <==> IsServed(ev, id) || Served(rest, id)
  {
    var events := [ev] + rest;
    assert forall k :: 0 <= k < |rest| ==> events[k + 1] == rest[k];
    if IsServed(ev, id) {
      assert IsServed(events[0], id);
    }
    if Served(rest, id) {
      var k :| 0 <= k < |rest| && IsServed(rest[k], id);
      assert IsServed(events[k + 1], id);
    }
    if Served(events, id) && !IsServed(ev, id) {
      var k :| 0 <= k < |events| && IsServed(events[k], id);
      assert IsServed(rest[k - 1], id);
    }
  }

  lemma PassedStep(r: Relay, cfg: Config, ev: Event, id: CallID)
    ensures id in Step(r, cfg, ev).passed <==> id in r.passed || IsServed(ev, id)
  {
    hide Resolved, CauseOf, RowOf, Incremented;
  }

  lemma {:induction false} RunPasses(r: Relay, cfg: Config, events: seq<Event>, id: CallID)
    ensures id in Run(r, cfg, events).passed <==> id in r.passed || Served(events, id)
    decreases |events|
  {
    if events != [] {
      hide Step;
      assert events == [events[0]] + events[1..];
      ServedFirst(events[0], events[1..], id);
      PassedStep(r, cfg, events[0], id);
      RunPasses(Step(r, cfg, events[0]), cfg, events[1..], id);
    }
  }

  /** In every interleaving a call gets past its first tests exactly when it was checked for a caller with a
      writer role and some text; only such calls are rejected or sent, and each of them once. */
  lemma OnlyWritersAreServed(rows: Counters, cfg: Config, events: seq<Event>, id: CallID)
    ensures var after := Run(Started(rows), cfg, events);
            && (id in after.passed <==>
                  exists k :: 0 <= k < |events| && events[k].Check? && events[k].id == id
                              && events[k].call.hasRole && events[k].call.signedTx != "")
            && (forall k :: 0 <= k < |after.rejects| ==> after.rejects[k].id in after.passed)
            && (forall k :: 0 <= k < |after.attempts| ==> after.attempts[k].id in after.passed)
            && (id in after.passed && after.inFlight == map[] ==>
                  || (exists k :: 0 <= k < |after.rejects| && after.rejects[k].id == id)
                  || (exists k :: 0 <= k < |after.attempts| && after.attempts[k].id == id))
  {
    var start, after := Started(rows), Run(Started(rows), cfg, events);
    RunPasses(start, cfg, events, id);
    ServedSpelled(events, id);
    StartBalances(rows, cfg);
    EveryCallCountsOnce(start, cfg, events);
    hide Step, Run;
    forall k | 0 <= k < |after.rejects|
      ensures after.rejects[k].id in after.passed
    {
      assert after.rejects[k].id in RejectedIDs(after.rejects);
    }
    forall k | 0 <= k < |after.attempts|
      ensures after.attempts[k].id in after.passed
    {
      assert after.attempts[k].id in AttemptedIDs(after.attempts);
    }
    if id in after.passed && after.inFlight == map[] {
      assert Waiting(after.inFlight) == {};
      assert id in RejectedIDs(after.rejects) || id in AttemptedIDs(after.attempts);
    }
  }

  lemma ServedSpelled(events: seq<Event>, id: CallID)
    ensures Served(events, id) <==>
              exists k :: 0 <= k < |events| && events[k].Check? && events[k].id == id
                          && events[k].call.hasRole && events[k].call.signedTx != ""
  {
    if Served(events, id) {
      var k :| 0 <= k < |events| && IsServed(events[k], id);
      assert events[k].Check? && events[k].id == id;
    }
    if k :| 0 <= k < |events| && events[k].Check? && events[k].id == id
            && events[k].call.hasRole && events[k].call.signedTx != "" {
      assert IsServed(events[k], id);
    }
  }

  // ---------- which check an attempt comes from ----------

  /** Event k checked call id and admitted it as adm, against the counters of that moment. */
  ghost predicate AdmittedAt(r: Relay, cfg: Config, events: seq<Event>, k: nat, id: CallID, adm: Admission) {
    && k < |events| && IsServed(events[k], id)
    && Resolved(cfg, events[k].call, Run(r, cfg, events[..k]).rows, events[k].answers) == Ok(adm)
  }

  ghost predicate ComesFrom(r: Relay, cfg: Config, events: seq<Event>, id: CallID, adm: Admission) {
    exists k :: AdmittedAt(r, cfg, events, k, id, adm)
  }

  ghost predicate Traced(r: Relay, cfg: Config, events: seq<Event>, after: Relay) {
    && (forall id :: id in after.inFlight && after.inFlight[id].Admitted? ==>
          ComesFrom(r, cfg, events, id, after.inFlight[id].adm))
    && (forall k :: 0 <= k < |after.attempts| ==>
          ComesFrom(r, cfg, events, after.attempts[k].id, after.attempts[k].adm))
  }

  lemma ComesFromEarlier(r: Relay, cfg: Config, events: seq<Event>, ev: Event, id: CallID, adm: Admission)
    requires ComesFrom(r, cfg, events, id, adm)
    ensures ComesFrom(r, cfg, events + [ev], id, adm)
  {
    hide Run, Resolved, IsServed;
    var k: nat :| AdmittedAt(r, cfg, events, k, id, adm);
    assert (events + [ev])[..k] == events[..k];
    assert AdmittedAt(r, cfg, events + [ev], k, id, adm);
  }

  lemma ComesFromNow(r: Relay, cfg: Config, events: seq<Event>, ev: Event, adm: Admission)
    requires ev.Check? && IsServed(ev, ev.id)
    requires Resolved(cfg, ev.call, Run(r, cfg, events).rows, ev.answers) == Ok(adm)
    ensures ComesFrom(r, cfg, events + [ev], ev.id, adm)
  {
    hide Run, Resolved, IsServed;
    assert (events + [ev])[..|events|] == events;
    assert AdmittedAt(r, cfg, events + [ev], |events|, ev.id, adm);
  }

  lemma {:induction false} RunSnoc(r: Relay, cfg: Config, events: seq<Event>, ev: Event)
    ensures Run(r, cfg, events + [ev]) == Step(Run(r, cfg, events), cfg, ev)
    decreases |events|
  {
    hide Step;
    if events != [] {
      assert (events + [ev])[0] == events[0] && (events + [ev])[1..] == events[1..] + [ev];
      RunSnoc(Step(r, cfg, events[0]), cfg, events[1..], ev);
    }
  }

  /** What a step adds to the calls waiting and to the attempts. */
  lemma StepAdds(r: Relay, cfg: Config, ev: Event)
    ensures var after := Step(r, cfg, ev);
            && (forall id :: id in after.inFlight && after.inFlight[id].Admitted? ==>
                  || (id in r.inFlight && after.inFlight[id] == r.inFlight[id])
                  || (ev.Check? && ev.id == id && IsServed(ev, id)
                      && Resolved(cfg, ev.call, r.rows, ev.answers) == Ok(after.inFlight[id].adm)))
            && |r.attempts| <= |after.attempts| <= |r.attempts| + 1
            && after.attempts[..|r.attempts|] == r.attempts
            && (|after.attempts| > |r.attempts| ==>
                  var t := after.attempts[|r.attempts|];
                  t.id in r.inFlight && r.inFlight[t.id] == Admitted(t.adm))
  {
    hide Resolved, CauseOf, RowOf, Incremented;
  }

  lemma StepIsTraced(r: Relay, cfg: Config, events: seq<Event>, ev: Event)
    requires Traced(r, cfg, events, Run(r, cfg, events))
    ensures Traced(r, cfg, events + [ev], Run(r, cfg, events + [ev]))
  {
    hide Resolved, IsServed, Step, ComesFrom, Run;
    var now, after := Run(r, cfg, events), Run(r, cfg, events + [ev]);
    RunSnoc(r, cfg, events, ev);
    StepAdds(now, cfg, ev);
    forall id | id in after.inFlight && after.inFlight[id].Admitted?
      ensures ComesFrom(r, cfg, events + [ev], id, after.inFlight[id].adm)
    {
      if id in now.inFlight && after.inFlight[id] == now.inFlight[id] {
        ComesFromEarlier(r, cfg, events, ev, id, after.inFlight[id].adm);
      } else {
        ComesFromNow(r, cfg, events, ev, after.inFlight[id].adm);
      }
    }
    forall k | 0 <= k < |after.attempts|
      ensures ComesFrom(r, cfg, events + [ev], after.attempts[k].id, after.attempts[k].adm)
    {
      if k < |now.attempts| {
        assert after.attempts[k] == now.attempts[k];
      }
      ComesFromEarlier(r, cfg, events, ev, after.attempts[k].id, after.attempts[k].adm);
    }
  }

  lemma {:induction false} RunIsTraced(rows: Counters, cfg: Config, events: seq<Event>)
    ensures Traced(Started(rows), cfg, events, Run(Started(rows), cfg, events))
    decreases |events|
  {
    hide Step, ComesFrom;
    if events != [] {
      var before, last := events[..|events| - 1], events[|events| - 1];
      assert events == before + [last];
      RunIsTraced(rows, cfg, before);
      StepIsTraced(Started(rows), cfg, before, last);
    }
  }

  /** In every interleaving each attempt at the node comes from a check, in the run, of that call: for a
      caller with a writer role and some text, and admitted against the counters of that moment. */
  lemma EveryAttemptWasChecked(rows: Counters, cfg: Config, events: seq<Event>, i: nat) returns (k: nat)
    requires i < |Run(Started(rows), cfg, events).attempts|
    ensures var t := Run(Started(rows), cfg, events).attempts[i];
            && k < |events| && events[k].Check? && events[k].id == t.id
            && events[k].call.hasRole && events[k].call.signedTx != ""
            && Resolved(cfg, events[k].call, Run(Started(rows), cfg, events[..k]).rows, events[k].answers) == Ok(t.adm)
  {
    hide Run, Resolved;
    RunIsTraced(rows, cfg, events);
    var t := Run(Started(rows), cfg, events).attempts[i];
    assert ComesFrom(Started(rows), cfg, events, t.id, t.adm);
    k :| AdmittedAt(Started(rows), cfg, events, k, t.id, t.adm);
  }
}
