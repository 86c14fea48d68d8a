/** internal/mcp/tools_evm_write.go and internal/mcp/relayscope.go: the relay of signed transactions.
    A call checks, broadcasts, writes down what happened and counts; between those steps other calls may
    run. */
module WriteRelay {
  import opened Outcomes
  import opened SignerQuota
  import opened WriteAudit

  /** What decoding a signed transaction yields; the value is absent when the payload has none. */
  datatype Tx = Tx(signer: Address, to: Option<Address>, value: Option<int>, input: Bytes, canonical: string)

  /** A store that is not configured is false; window is in nanoseconds. */
  datatype Gates = Gates(
    blacklist: bool, quota: bool, rate: int, window: int, quotaFailOpen: bool, blacklistFailOpen: bool)

  /** The anchor address is None when it does not parse. */
  datatype Config = Config(
    anchor: Option<Address>, keylessWrites: bool, relayAllowAny: bool, audit: bool, gates: Gates)

  datatype Cause =
    | CauseDecode | CauseAnchorMisconfig | CauseRelayScope
    | CauseBlacklistStoreErr | CauseSignerBlacklist | CauseQuotaStoreErr | CauseSignerQuota

  datatype SendError =
    | Forbidden | MissingRequired
    | TxDecode | InvalidAddress | RelayScopeRejected | RelayValueRejected
    | BlacklistUnavailable | SignerBlacklisted | QuotaUnavailable | SignerQuotaExceeded
    | NodeRejected

  /** The caller has a writer role or not; decoded is what decoding signedTx yields. */
  datatype Call = Call(hasRole: bool, signedTx: string, decoded: Option<Tx>)

  datatype BanAnswer = Banned | NotBanned | BanUnknown

  /** What clock and stores answer while a call is checked. */
  datatype Answers = Answers(now: Instant, ban: BanAnswer, counted: bool)

  // ---------- the checks ----------

  function CheckRelayScope(to: Option<Address>, value: Option<int>, anchor: Address): Option<SendError> {
    if to.None? || to.value != anchor then Some(RelayScopeRejected)
    else if value.Some? && value.value != 0 then Some(RelayValueRejected)
    else None
  }

  function ScopedTx(cfg: Config, call: Call): Result<Tx, SendError> {
    match call.decoded
    case None => Err(TxDecode)
    case Some(tx) =>
      if cfg.anchor.None? then Err(InvalidAddress)
      else
        match CheckRelayScope(tx.to, tx.value, cfg.anchor.value)
        case Some(e) => Err(e)
        case None => Ok(tx)
  }

  function SlotAt(g: Gates, signer: Address, now: Instant): Slot {
    Slot(signer, WindowStart(now, g.window))
  }

  function GateRefusal(g: Gates, signer: Address, rows: Counters, a: Answers): Option<SendError> {
    if g.blacklist && a.ban == BanUnknown && !g.blacklistFailOpen then Some(BlacklistUnavailable)
    else if g.blacklist && a.ban == Banned then Some(SignerBlacklisted)
    else if g.quota && !a.counted && !g.quotaFailOpen then Some(QuotaUnavailable)
    else if g.quota && a.counted && CountOf(rows, SlotAt(g, signer, a.now)) >= g.rate then Some(SignerQuotaExceeded)
    else None
  }

  /** A call past its checks: the transaction if it decoded, the window it was checked in, the bytes. */
  datatype Admission = Admission(tx: Option<Tx>, ws: Instant, hex: string)

  function Resolved(cfg: Config, call: Call, rows: Counters, a: Answers): Result<Admission, SendError> {
    if cfg.keylessWrites then
      match ScopedTx(cfg, call)
      case Err(e) => Err(e)
      case Ok(tx) =>
        match GateRefusal(cfg.gates, tx.signer, rows, a)
        case Some(e) => Err(e)
        case None => Ok(Admission(Some(tx), WindowStart(a.now, cfg.gates.window), tx.canonical))
    else if cfg.relayAllowAny then Ok(Admission(call.decoded, 0, call.signedTx))
    else
      match ScopedTx(cfg, call)
      case Err(e) => Err(e)
      case Ok(tx) => Ok(Admission(Some(tx), 0, call.signedTx))
  }

  /** What may be sent: anything under the escape hatch; else only a decodable call to a known anchor that
      carries no value, and under keyless writes only one whose signer is not banned and below its rate, a
      store that does not answer counting as a refusal unless it may fail open. What is sent then: the
      canonical bytes under keyless writes, the caller's otherwise. */
  lemma AdmittedIff(cfg: Config, call: Call, rows: Counters, a: Answers)
    ensures Resolved(cfg, call, rows, a).Ok? <==>
            || (cfg.relayAllowAny && !cfg.keylessWrites)
            || (&& call.decoded.Some? && cfg.anchor.Some?
                && call.decoded.value.to == cfg.anchor
                && (call.decoded.value.value.None? || call.decoded.value.value == Some(0))
                && (cfg.keylessWrites && cfg.gates.blacklist ==>
                      a.ban == NotBanned || (a.ban == BanUnknown && cfg.gates.blacklistFailOpen))
                && (cfg.keylessWrites && cfg.gates.quota ==>
                      var slot := Slot(call.decoded.value.signer, WindowStart(a.now, cfg.gates.window));
                      if a.counted then (if slot in rows then rows[slot] else 0) < cfg.gates.rate
                      else cfg.gates.quotaFailOpen))
    ensures Resolved(cfg, call, rows, a).Ok? ==>
              var adm := Resolved(cfg, call, rows, a).value;
              && adm.tx == call.decoded
              && (if cfg.keylessWrites
                  then adm.hex == call.decoded.value.canonical && adm.ws == WindowStart(a.now, cfg.gates.window)
                  else adm.hex == call.signedTx && adm.ws == 0)
  {
  }

  /** The reason for a refusal: the scope comes first, then the blacklist, then the quota; a banned signer is
      told so whatever its quota. */
  lemma RefusedBecause(cfg: Config, call: Call, rows: Counters, a: Answers)
    ensures var refusal, scoped := Resolved(cfg, call, rows, a), cfg.keylessWrites || !cfg.relayAllowAny;
            && (refusal == Err(TxDecode) <==> scoped && call.decoded.None?)
            && (refusal == Err(InvalidAddress) <==> scoped && call.decoded.Some? && cfg.anchor.None?)
            && (refusal == Err(RelayScopeRejected) <==>
                  scoped && call.decoded.Some? && cfg.anchor.Some? && call.decoded.value.to != cfg.anchor)
            && (refusal == Err(RelayValueRejected) <==>
                  scoped && call.decoded.Some? && cfg.anchor.Some? && call.decoded.value.to == cfg.anchor
                  && call.decoded.value.value.Some? && call.decoded.value.value.value != 0)
    ensures call.decoded.Some? && cfg.anchor.Some? && cfg.keylessWrites && call.decoded.value.to == cfg.anchor
            && (call.decoded.value.value.None? || call.decoded.value.value.value == 0) ==>
              var refusal, g := Resolved(cfg, call, rows, a), cfg.gates;
              var slot := Slot(call.decoded.value.signer, WindowStart(a.now, g.window));
              var unbanned := g.blacklist ==> a.ban == NotBanned || (a.ban == BanUnknown && g.blacklistFailOpen);
              && (refusal == Err(BlacklistUnavailable) <==> g.blacklist && a.ban == BanUnknown && !g.blacklistFailOpen)
              && (refusal == Err(SignerBlacklisted) <==> g.blacklist && a.ban == Banned)
              && (refusal == Err(QuotaUnavailable) <==> unbanned && g.quota && !a.counted && !g.quotaFailOpen)
              && (refusal == Err(SignerQuotaExceeded) <==>
                    unbanned && g.quota && a.counted && (if slot in rows then rows[slot] else 0) >= g.rate)
  {
    hide WindowStart;
    if call.decoded.Some? && cfg.anchor.Some? {
      ScopeRefusal(call.decoded.value.to, call.decoded.value.value, cfg.anchor.value);
      hide CheckRelayScope;
    }
  }

  lemma ScopeRefusal(to: Option<Address>, value: Option<int>, anchor: Address)
    ensures CheckRelayScope(to, value, anchor)
         == if to != Some(anchor) then Some(RelayScopeRejected)
            else if value.Some? && value.value != 0 then Some(RelayValueRejected) else None
  {
  }

  /** The cause a rejection is counted under. */
  function CauseOf(e: SendError): Cause {
    match e
    case TxDecode => CauseDecode
    case InvalidAddress => CauseAnchorMisconfig
    case BlacklistUnavailable => CauseBlacklistStoreErr
    case SignerBlacklisted => CauseSignerBlacklist
    case QuotaUnavailable => CauseQuotaStoreErr
    case SignerQuotaExceeded => CauseSignerQuota
    case _ => CauseRelayScope
  }

  // ---------- concurrent calls ----------

  type CallID = nat

  /** One attempt at the node, and the hash it answered with. */
  datatype Attempt = Attempt(id: CallID, adm: Admission, hash: Option<string>)

  datatype Phase =
    | Admitted(adm: Admission)
    | Sent(attempt: Attempt)
    | Uncounted(slot: Slot)

  /** An attempt that was written down; taken says whether the audit store took its row. */
  datatype Recording = Recording(attempt: Attempt, taken: bool)

  datatype Rejection = Rejection(id: CallID, cause: Cause)

  datatype AuditRow = AuditRow(
    signer: Address, to: Option<Address>, value: Option<int>, calldataLen: nat, selector: string,
    txHash: string, ok: bool)

  /** The quota table, the counters of the metrics, what was sent and the audit table. The last four
      fields are there for the claims: attempts in the order they were written down, calls past the first
      checks, slots whose check the quota store did not answer, and slots whose increment it did not take. */
  datatype Relay = Relay(
    rows: Counters,
    inFlight: map<CallID, Phase>,
    rejects: seq<Rejection>,
    ok: nat,
    failed: nat,
    attempts: seq<Attempt>,
    audit: seq<AuditRow>,
    recordings: seq<Recording>,
    passed: set<CallID>,
    failedOpen: multiset<Slot>,
    lost: multiset<Slot>)

  /** A Check happens when the counter is read: the clock and the blacklist were read before. */
  datatype Event =
    | Check(id: CallID, call: Call, answers: Answers)
    | Broadcast(id: CallID, hash: Option<string>)
    | Record(id: CallID, taken: bool)
    | Increment(id: CallID, counted: bool)

  function FirstCheck(call: Call): Option<SendError> {
    if !call.hasRole then Some(Forbidden)
    else if call.signedTx == "" then Some(MissingRequired)
    else None
  }

  function RowOf(tx: Tx, hash: Option<string>): AuditRow {
    AuditRow(tx.signer, tx.to, tx.value, |tx.input|, MethodSelectorOf(tx.input),
             if hash.Some? then hash.value else "", hash.Some?)
  }

  function CheckStep(r: Relay, cfg: Config, id: CallID, call: Call, a: Answers): Relay {
    if id in r.passed || FirstCheck(call).Some? then r
    else
      var s := r.(passed := r.passed + {id});
      match Resolved(cfg, call, r.rows, a)
      case Err(e) => s.(rejects := r.rejects + [Rejection(id, CauseOf(e))])
      case Ok(adm) =>
        s.(inFlight := r.inFlight[id := Admitted(adm)],
           failedOpen := if cfg.keylessWrites && cfg.gates.quota && !a.counted
                         then r.failedOpen + multiset{Slot(adm.tx.value.signer, adm.ws)} else r.failedOpen)
  }

  function BroadcastStep(r: Relay, id: CallID, hash: Option<string>): Relay {
    if id !in r.inFlight || !r.inFlight[id].Admitted? then r
    else
      var t := Attempt(id, r.inFlight[id].adm, hash);
      r.(attempts := r.attempts + [t], inFlight := r.inFlight[id := Sent(t)])
  }

  /** The audit row, then the metric. A success with a known signer goes on to the quota. */
  function RecordStep(r: Relay, cfg: Config, id: CallID, taken: bool): Relay {
    if id !in r.inFlight || !r.inFlight[id].Sent? then r
    else
      var t := r.inFlight[id].attempt;
      r.(recordings := r.recordings + [Recording(t, taken)],
         audit := if cfg.audit && t.adm.tx.Some? && taken then r.audit + [RowOf(t.adm.tx.value, t.hash)] else r.audit,
         inFlight := if t.hash.Some? && t.adm.tx.Some? && cfg.gates.quota
                     then r.inFlight[id := Uncounted(Slot(t.adm.tx.value.signer, t.adm.ws))] else r.inFlight - {id},
         ok := if t.hash.Some? then r.ok + 1 else r.ok,
         failed := if t.hash.Some? then r.failed else r.failed + 1)
  }

  function IncrementStep(r: Relay, id: CallID, counted: bool): Relay {
    if id !in r.inFlight || !r.inFlight[id].Uncounted? then r
    else
      var slot := r.inFlight[id].slot;
      r.(rows := if counted then Incremented(r.rows, slot) else r.rows,
         lost := if counted then r.lost else r.lost + multiset{slot},
         inFlight := r.inFlight - {id})
  }

  function Step(r: Relay, cfg: Config, ev: Event): Relay {
    match ev
    case Check(id, call, answers) => CheckStep(r, cfg, id, call, answers)
    case Broadcast(id, hash) => BroadcastStep(r, id, hash)
    case Record(id, taken) => RecordStep(r, cfg, id, taken)
    case Increment(id, counted) => IncrementStep(r, id, counted)
  }

  function Run(r: Relay, cfg: Config, events: seq<Event>): Relay
    decreases |events|
  {
    if events == [] then r else Run(Step(r, cfg, events[0]), cfg, events[1..])
  }

  function Started(rows: Counters): Relay {
    Relay(rows, map[], [], 0, 0, [], [], [], {}, multiset{}, multiset{})
  }

  // ---------- every call is counted once ----------

  function RejectedIDs(rejects: seq<Rejection>): set<CallID> {
    set k | 0 <= k < |rejects| :: rejects[k].id
  }

  function AttemptedIDs(attempts: seq<Attempt>): set<CallID> {
    set k | 0 <= k < |attempts| :: attempts[k].id
  }

  /** Calls admitted and not yet sent. */
  function Waiting(inFlight: map<CallID, Phase>): set<CallID> {
    set id | id in inFlight && inFlight[id].Admitted?
  }

  /** Calls sent and not yet written down. */
  function Unrecorded(inFlight: map<CallID, Phase>): set<CallID> {
    set id | id in inFlight && inFlight[id].Sent?
  }

  predicate Splits(all: set<CallID>, a: set<CallID>, b: set<CallID>, c: set<CallID>) {
    all == a + b + c && a !! b && a !! c && b !! c
  }

  lemma SplitSizes(all: set<CallID>, a: set<CallID>, b: set<CallID>, c: set<CallID>)
    requires Splits(all, a, b, c)
    ensures |all| == |a| + |b| + |c|
  {
    assert all == (a + b) + c;
  }

  lemma SplitGrows(all: set<CallID>, a: set<CallID>, b: set<CallID>, c: set<CallID>, id: CallID)
    requires Splits(all, a, b, c) && id !in all
    ensures Splits(all + {id}, a + {id}, b, c) && |a + {id}| == |a| + 1
    ensures Splits(all + {id}, a, b, c + {id})
  {
  }

  lemma SplitMoves(all: set<CallID>, a: set<CallID>, b: set<CallID>, c: set<CallID>, id: CallID)
    requires Splits(all, a, b, c) && id in c
    ensures Splits(all, a, b + {id}, c - {id}) && |b + {id}| == |b| + 1
  {
    assert id !in b;
  }

  /** A call past its first checks is rejected once, or sent once, or still waiting to be sent. */
  ghost predicate Ledger(r: Relay) {
    && Splits(r.passed, RejectedIDs(r.rejects), AttemptedIDs(r.attempts), Waiting(r.inFlight))
    && |RejectedIDs(r.rejects)| == |r.rejects|
    && |AttemptedIDs(r.attempts)| == |r.attempts|
    && r.inFlight.Keys <= r.passed
    && r.ok + r.failed + |Unrecorded(r.inFlight)| == |r.attempts|
  }

  lemma RejectedIDsGrow(rejects: seq<Rejection>, x: Rejection)
    ensures RejectedIDs(rejects + [x]) == RejectedIDs(rejects) + {x.id}
  {
    var all := rejects + [x];
    assert all[|rejects|] == x;
    assert forall k :: 0 <= k < |rejects| ==> all[k] == rejects[k];
  }

  lemma AttemptedIDsGrow(attempts: seq<Attempt>, x: Attempt)
    ensures AttemptedIDs(attempts + [x]) == AttemptedIDs(attempts) + {x.id}
  {
    var all := attempts + [x];
    assert all[|attempts|] == x;
    assert forall k :: 0 <= k < |attempts| ==> all[k] == attempts[k];
  }

  lemma CheckKeepsLedger(r: Relay, cfg: Config, id: CallID, call: Call, a: Answers)
    requires Ledger(r)
    ensures Ledger(CheckStep(r, cfg, id, call, a))
  {
    hide Splits, RejectedIDs, AttemptedIDs, Waiting, Unrecorded, Resolved, FirstCheck, CauseOf;
    if id !in r.passed && FirstCheck(call).None? {
      SplitGrows(r.passed, RejectedIDs(r.rejects), AttemptedIDs(r.attempts), Waiting(r.inFlight), id);
      match Resolved(cfg, call, r.rows, a)
      case Err(e) => RejectedIDsGrow(r.rejects, Rejection(id, CauseOf(e)));
      case Ok(adm) => WaitingGrows(r.inFlight, id, adm);
    }
  }

  lemma BroadcastKeepsLedger(r: Relay, id: CallID, hash: Option<string>)
    requires Ledger(r)
    ensures Ledger(BroadcastStep(r, id, hash))
  {
    hide Splits, RejectedIDs, AttemptedIDs, Waiting, Unrecorded;
    if id in r.inFlight && r.inFlight[id].Admitted? {
      var t := Attempt(id, r.inFlight[id].adm, hash);
      WaitingShrinks(r.inFlight, id, Sent(t));
      UnrecordedSend(r.inFlight, id, t);
      SplitMoves(r.passed, RejectedIDs(r.rejects), AttemptedIDs(r.attempts), Waiting(r.inFlight), id);
      AttemptedIDsGrow(r.attempts, t);
    }
  }

  lemma RecordKeepsLedger(r: Relay, cfg: Config, id: CallID, taken: bool)
    requires Ledger(r)
    ensures Ledger(RecordStep(r, cfg, id, taken))
  {
    hide Splits, RejectedIDs, AttemptedIDs, Waiting, Unrecorded, RowOf;
    if id in r.inFlight && r.inFlight[id].Sent? {
      var t := r.inFlight[id].attempt;
      var p := Uncounted(if t.adm.tx.Some? then Slot(t.adm.tx.value.signer, t.adm.ws) else Slot(0, 0));
      WaitingStays(r.inFlight, id, p);
      UnrecordedLeaves(r.inFlight, id, p);
    }
  }

  lemma StepKeepsLedger(r: Relay, cfg: Config, ev: Event)
    requires Ledger(r)
    ensures Ledger(Step(r, cfg, ev))
  {
    hide Splits, RejectedIDs, AttemptedIDs, Waiting, Unrecorded, CheckStep, BroadcastStep, RecordStep;
    match ev
    case Check(id, call, answers) => CheckKeepsLedger(r, cfg, id, call, answers);
    case Broadcast(id, hash) => BroadcastKeepsLedger(r, id, hash);
    case Record(id, taken) => RecordKeepsLedger(r, cfg, id, taken);
    case Increment(id, counted) =>
      if id in r.inFlight && r.inFlight[id].Uncounted? {
        WaitingStays(r.inFlight, id, r.inFlight[id]);
        UnrecordedLeaves(r.inFlight, id, r.inFlight[id]);
      }
  }

  lemma WaitingGrows(m: map<CallID, Phase>, id: CallID, adm: Admission)
    requires id !in m
    ensures Waiting(m[id := Admitted(adm)]) == Waiting(m) + {id}
    ensures Unrecorded(m[id := Admitted(adm)]) == Unrecorded(m)
  {
  }

  lemma WaitingShrinks(m: map<CallID, Phase>, id: CallID, p: Phase)
    requires id in m && m[id].Admitted? && !p.Admitted?
    ensures id in Waiting(m) && Waiting(m[id := p]) == Waiting(m) - {id}
  {
  }

  lemma WaitingStays(m: map<CallID, Phase>, id: CallID, p: Phase)
    requires id in m && !m[id].Admitted? && !p.Admitted?
    ensures Waiting(m[id := p]) == Waiting(m) && Waiting(m - {id}) == Waiting(m)
  {
  }

  lemma UnrecordedSend(m: map<CallID, Phase>, id: CallID, t: Attempt)
    requires id in m && m[id].Admitted?
    ensures |Unrecorded(m[id := Sent(t)])| == |Unrecorded(m)| + 1
  {
    assert Unrecorded(m[id := Sent(t)]) == Unrecorded(m) + {id};
  }

  lemma UnrecordedLeaves(m: map<CallID, Phase>, id: CallID, p: Phase)
    requires id in m && p.Uncounted?
    ensures |Unrecorded(m - {id})| == |Unrecorded(m)| - if m[id].Sent? then 1 else 0
    ensures Unrecorded(m[id := p]) == Unrecorded(m - {id})
  {
    assert Unrecorded(m - {id}) == Unrecorded(m) - if m[id].Sent? then {id} else {};
  }

  /** In every interleaving: rejects, broadcasts that went well and broadcasts that failed add up to the
      calls past their first checks, less those still waiting or not yet written down; no call is sent
      twice. */
  lemma {:induction false} EveryCallCountsOnce(r: Relay, cfg: Config, events: seq<Event>)
    requires Ledger(r)
    ensures var after := Run(r, cfg, events);
            && Ledger(after)
            && |after.rejects| + after.ok + after.failed + |Waiting(after.inFlight)| + |Unrecorded(after.inFlight)|
               == |after.passed|
            && forall i, j :: 0 <= i < j < |after.attempts| ==> after.attempts[i].id != after.attempts[j].id
    decreases |events|
  {
    hide Step, RejectedIDs, AttemptedIDs, Waiting, Unrecorded;
    if events == [] {
      SplitSizes(r.passed, RejectedIDs(r.rejects), AttemptedIDs(r.attempts), Waiting(r.inFlight));
      AttemptsDistinct(r.attempts);
    } else {
      StepKeepsLedger(r, cfg, events[0]);
      EveryCallCountsOnce(Step(r, cfg, events[0]), cfg, events[1..]);
    }
  }

  /** As many distinct IDs as attempts: no two attempts share one. */
  lemma {:induction false} AttemptsDistinct(attempts: seq<Attempt>)
    ensures |AttemptedIDs(attempts)| <= |attempts|
    ensures |AttemptedIDs(attempts)| == |attempts| ==>
              forall i, j :: 0 <= i < j < |attempts| ==> attempts[i].id != attempts[j].id
  {
    hide AttemptedIDs;
    if |attempts| > 0 {
      var rest, last := attempts[..|attempts| - 1], attempts[|attempts| - 1];
      assert attempts == rest + [last];
      AttemptedIDsGrow(rest, last);
      AttemptsDistinct(rest);
      if |AttemptedIDs(attempts)| == |attempts| {
        assert last.id !in AttemptedIDs(rest);
        forall i | 0 <= i < |rest|
          ensures rest[i].id != last.id
        {
          AttemptedIDsHas(rest, i);
        }
      }
    } else {
      NothingAttempted(attempts);
    }
  }

  lemma AttemptedIDsHas(attempts: seq<Attempt>, i: nat)
    requires i < |attempts|
    ensures attempts[i].id in AttemptedIDs(attempts)
  {
  }

  lemma NothingAttempted(attempts: seq<Attempt>)
    requires |attempts| == 0
    ensures AttemptedIDs(attempts) == {}
  {
  }

  // ---------- what is sent, and what is written down ----------

  /** Without the escape hatch: a call to the anchor that carries no value. */
  predicate InScope(cfg: Config, adm: Admission) {
    cfg.keylessWrites || !cfg.relayAllowAny ==>
      && adm.tx.Some?
      && cfg.anchor.Some?
      && adm.tx.value.to == cfg.anchor
      && (adm.tx.value.value.None? || adm.tx.value.value == Some(0))
      && (cfg.keylessWrites ==> adm.hex == adm.tx.value.canonical)
  }

  /** The audit rows of attempts, in the order they were written down. */
  function RowsOf(recordings: seq<Recording>): seq<AuditRow> {
    if |recordings| == 0 then []
    else
      var x := recordings[|recordings| - 1];
      RowsOf(recordings[..|recordings| - 1])
      + if x.attempt.adm.tx.Some? && x.taken then [RowOf(x.attempt.adm.tx.value, x.attempt.hash)] else []
  }

  function Told(recordings: seq<Recording>): multiset<Attempt> {
    if |recordings| == 0 then multiset{}
    else Told(recordings[..|recordings| - 1]) + multiset{recordings[|recordings| - 1].attempt}
  }

  function SentSet(inFlight: map<CallID, Phase>): set<Attempt> {
    set id | id in inFlight && inFlight[id].Sent? :: inFlight[id].attempt
  }

  ghost predicate Scoped(r: Relay, cfg: Config) {
    && (forall id :: id in r.inFlight && r.inFlight[id].Admitted? ==> InScope(cfg, r.inFlight[id].adm))
    && (forall k :: 0 <= k < |r.attempts| ==> InScope(cfg, r.attempts[k].adm))
  }

  ghost predicate OwnIDs(inFlight: map<CallID, Phase>) {
    forall id :: id in inFlight && inFlight[id].Sent? ==> inFlight[id].attempt.id == id
  }

  predicate AddsUp(all: multiset<Attempt>, told: multiset<Attempt>, untold: multiset<Attempt>) {
    all == told + untold
  }

  /** Every attempt is in scope, and is either written down, once, or still to be. */
  ghost predicate Books(r: Relay, cfg: Config) {
    && r.inFlight.Keys <= r.passed
    && Scoped(r, cfg)
    && OwnIDs(r.inFlight)
    && AddsUp(multiset(r.attempts), Told(r.recordings), multiset(SentSet(r.inFlight)))
    && r.audit == if cfg.audit then RowsOf(r.recordings) else []
  }

  lemma ResolvedInScope(cfg: Config, call: Call, rows: Counters, a: Answers)
    ensures Resolved(cfg, call, rows, a).Ok? ==> InScope(cfg, Resolved(cfg, call, rows, a).value)
  {
  }

  /** A relay that has served nothing balances. */
  lemma StartBalances(rows: Counters, cfg: Config)
    ensures Ledger(Started(rows)) && Books(Started(rows), cfg)
  {
    var r := Started(rows);
    assert RejectedIDs(r.rejects) == {} && AttemptedIDs(r.attempts) == {} && Waiting(r.inFlight) == {};
    assert Unrecorded(r.inFlight) == {} && SentSet(r.inFlight) == {} && Told(r.recordings) == multiset{};
  }

  lemma SentSetGrows(m: map<CallID, Phase>, id: CallID, t: Attempt)
    requires id in m && m[id].Admitted? && t.id == id
    requires OwnIDs(m)
    ensures multiset(SentSet(m[id := Sent(t)])) == multiset(SentSet(m)) + multiset{t}
  {
    var n := m[id := Sent(t)];
    assert SentSet(n) == SentSet(m) + {t} by {
      assert n[id].attempt == t;
      forall i | i in m && m[i].Sent?
        ensures m[i].attempt in SentSet(n)
      {
        assert n[i] == m[i];
      }
    }
    assert t !in SentSet(m);
  }

  lemma SentSetShrinks(m: map<CallID, Phase>, id: CallID, p: Phase)
    requires id in m && m[id].Sent? && p.Uncounted?
    requires OwnIDs(m)
    ensures multiset(SentSet(m)) == multiset(SentSet(m - {id})) + multiset{m[id].attempt}
    ensures SentSet(m[id := p]) == SentSet(m - {id})
  {
    var n := m - {id};
    assert SentSet(m) == SentSet(n) + {m[id].attempt} by {
      forall i | i in m && m[i].Sent? && i != id
        ensures m[i].attempt in SentSet(n)
      {
        assert n[i] == m[i];
      }
    }
    assert m[id].attempt !in SentSet(n);
    assert SentSet(m[id := p]) == SentSet(n) by {
      forall i | i in n && n[i].Sent?
        ensures n[i].attempt in SentSet(m[id := p])
      {
        assert m[id := p][i] == n[i];
      }
    }
  }

  lemma SentSetSame(m: map<CallID, Phase>, n: map<CallID, Phase>)
    requires forall i :: (i in m && m[i].Sent?) <==> (i in n && n[i].Sent?)
    requires forall i :: i in m && m[i].Sent? ==> n[i] == m[i]
    ensures SentSet(m) == SentSet(n)
  {
    forall i | i in m && m[i].Sent?
      ensures m[i].attempt in SentSet(n)
    {
      assert n[i] == m[i];
    }
  }

  lemma ToldMoves(all: multiset<Attempt>, told: multiset<Attempt>, untold: multiset<Attempt>,
                  rest: multiset<Attempt>, t: Attempt)
    requires AddsUp(all, told, untold) && untold == rest + multiset{t}
    ensures AddsUp(all, told + multiset{t}, rest)
  {
  }

  lemma UntoldGrows(all: multiset<Attempt>, told: multiset<Attempt>, untold: multiset<Attempt>, t: Attempt)
    requires AddsUp(all, told, untold)
    ensures AddsUp(all + multiset{t}, told, untold + multiset{t})
  {
  }

  lemma RecordingsGrow(recordings: seq<Recording>, x: Recording)
    ensures Told(recordings + [x]) == Told(recordings) + multiset{x.attempt}
    ensures RowsOf(recordings + [x])
         == RowsOf(recordings)
            + if x.attempt.adm.tx.Some? && x.taken then [RowOf(x.attempt.adm.tx.value, x.attempt.hash)] else []
  {
    assert (recordings + [x])[..|recordings|] == recordings;
  }

  lemma CheckKeepsBooks(r: Relay, cfg: Config, id: CallID, call: Call, a: Answers)
    requires Books(r, cfg)
    ensures Books(CheckStep(r, cfg, id, call, a), cfg)
  {
    hide InScope, Resolved, FirstCheck, CauseOf, SentSet, RowsOf, Told, AddsUp;
    ResolvedInScope(cfg, call, r.rows, a);
    SentSetSame(r.inFlight, CheckStep(r, cfg, id, call, a).inFlight);
  }

  lemma BroadcastKeepsBooks(r: Relay, cfg: Config, id: CallID, hash: Option<string>)
    requires Books(r, cfg)
    ensures Books(BroadcastStep(r, id, hash), cfg)
  {
    hide InScope, SentSet, RowsOf, Told, AddsUp;
    if id in r.inFlight && r.inFlight[id].Admitted? {
      var t := Attempt(id, r.inFlight[id].adm, hash);
      SentSetGrows(r.inFlight, id, t);
      UntoldGrows(multiset(r.attempts), Told(r.recordings), multiset(SentSet(r.inFlight)), t);
      assert multiset(r.attempts + [t]) == multiset(r.attempts) + multiset{t};
    }
  }

  lemma RecordKeepsBooks(r: Relay, cfg: Config, id: CallID, taken: bool)
    requires Books(r, cfg)
    ensures Books(RecordStep(r, cfg, id, taken), cfg)
  {
    hide InScope, RowOf, SentSet, RowsOf, Told, AddsUp;
    if id in r.inFlight && r.inFlight[id].Sent? {
      var t := r.inFlight[id].attempt;
      var p := Uncounted(if t.adm.tx.Some? then Slot(t.adm.tx.value.signer, t.adm.ws) else Slot(0, 0));
      var rest := multiset(SentSet(r.inFlight - {id}));
      RecordingsGrow(r.recordings, Recording(t, taken));
      SentSetShrinks(r.inFlight, id, p);
      ToldMoves(multiset(r.attempts), Told(r.recordings), multiset(SentSet(r.inFlight)), rest, t);
    }
  }

  lemma StepKeepsBooks(r: Relay, cfg: Config, ev: Event)
    requires Books(r, cfg)
    ensures Books(Step(r, cfg, ev), cfg)
  {
    hide InScope, CheckStep, BroadcastStep, RecordStep, SentSet, RowsOf, Told, AddsUp;
    match ev
    case Check(id, call, answers) => CheckKeepsBooks(r, cfg, id, call, answers);
    case Broadcast(id, hash) => BroadcastKeepsBooks(r, cfg, id, hash);
    case Record(id, taken) => RecordKeepsBooks(r, cfg, id, taken);
    case Increment(id, counted) =>
      SentSetSame(r.inFlight, Step(r, cfg, ev).inFlight);
  }

  lemma {:induction false} ToldHas(recordings: seq<Recording>)
    ensures |Told(recordings)| == |recordings|
    ensures forall k :: 0 <= k < |recordings| ==> recordings[k].attempt in Told(recordings)
  {
    if |recordings| > 0 {
      ToldHas(recordings[..|recordings| - 1]);
    }
  }

  lemma {:induction false} RunKeepsBooks(r: Relay, cfg: Config, events: seq<Event>)
    requires Books(r, cfg)
    ensures var after := Run(r, cfg, events);
            && Books(after, cfg)
            && (Unrecorded(after.inFlight) == {} ==>
                  && multiset(after.attempts) == Told(after.recordings)
                  && |after.recordings| == |after.attempts|)
            && (cfg.audit && (cfg.keylessWrites || !cfg.relayAllowAny)
                && (forall k :: 0 <= k < |after.recordings| ==> after.recordings[k].taken) ==>
                  && |after.audit| == |after.recordings|
                  && forall k :: 0 <= k < |after.recordings| ==>
                       && after.recordings[k].attempt.adm.tx.Some?
                       && after.audit[k]
                          == RowOf(after.recordings[k].attempt.adm.tx.value, after.recordings[k].attempt.hash))
    decreases |events|
  {
    hide Step, RowOf;
    if events == [] {
      if Unrecorded(r.inFlight) == {} {
        RestingBooks(r, cfg);
      }
      if cfg.audit && (cfg.keylessWrites || !cfg.relayAllowAny)
         && forall k :: 0 <= k < |r.recordings| ==> r.recordings[k].taken {
        RecordedInScope(r, cfg);
        OneRowEach(r.recordings);
      }
    } else {
      hide Books, Told, RowsOf, Unrecorded;
      StepKeepsBooks(r, cfg, events[0]);
      RunKeepsBooks(Step(r, cfg, events[0]), cfg, events[1..]);
    }
  }

  /** In every interleaving: only anchor calls without value are sent. Once nothing is left to be written
      down, what was written down are the attempts, each once, in some order; and while the store takes every
      row, the audit table holds exactly one row for each, in that order. */
  lemma SentAndAudited(r: Relay, cfg: Config, events: seq<Event>)
    requires Books(r, cfg)
    ensures var after := Run(r, cfg, events);
            && Books(after, cfg)
            && (Unrecorded(after.inFlight) == {} ==>
                  && multiset(after.attempts) == Told(after.recordings)
                  && |after.recordings| == |after.attempts|)
    ensures cfg.keylessWrites || !cfg.relayAllowAny ==>
              forall k :: 0 <= k < |Run(r, cfg, events).attempts| ==>
                var adm := Run(r, cfg, events).attempts[k].adm;
                && adm.tx.Some? && cfg.anchor.Some? && adm.tx.value.to == cfg.anchor
                && adm.tx.value.value in {None, Some(0)}
                && (cfg.keylessWrites ==> adm.hex == adm.tx.value.canonical)
    ensures var after := Run(r, cfg, events);
            cfg.audit && (cfg.keylessWrites || !cfg.relayAllowAny)
            && (forall k :: 0 <= k < |after.recordings| ==> after.recordings[k].taken) ==>
              && |after.audit| == |after.recordings|
              && forall k :: 0 <= k < |after.recordings| ==>
                   && after.recordings[k].attempt.adm.tx.Some?
                   && var tx, row, hash :=
                        after.recordings[k].attempt.adm.tx.value, after.audit[k], after.recordings[k].attempt.hash;
                      && row.signer == tx.signer && row.to == tx.to && row.value == tx.value
                      && row.calldataLen == |tx.input| && row.selector == MethodSelectorOf(tx.input)
                      && (row.ok <==> hash.Some?) && row.txHash == (if hash.Some? then hash.value else "")
  {
    hide Told, RowsOf, Unrecorded, Run, SentSet, AddsUp;
    RunKeepsBooks(r, cfg, events);
    var after := Run(r, cfg, events);
    forall k | 0 <= k < |after.attempts|
      ensures InScope(cfg, after.attempts[k].adm)
    {
      assert Scoped(after, cfg);
    }
    hide Books, Scoped;
  }

  /** The recordings whose broadcast went well, or the others. */
  function Ended(recordings: seq<Recording>, well: bool): set<nat> {
    set k: nat | k < |recordings| && recordings[k].attempt.hash.Some? == well
  }

  lemma EndedGrow(recordings: seq<Recording>, x: Recording, well: bool)
    ensures |Ended(recordings + [x], well)|
            == |Ended(recordings, well)| + if x.attempt.hash.Some? == well then 1 else 0
  {
    assert Ended(recordings + [x], well)
        == Ended(recordings, well) + if x.attempt.hash.Some? == well then {|recordings|} else {};
  }

  /** In every interleaving the two counters are the broadcasts that went well and those that failed, of
      those written down. */
  lemma {:induction false} MetricsCountOutcomes(r: Relay, cfg: Config, events: seq<Event>)
    requires r.ok == |Ended(r.recordings, true)| && r.failed == |Ended(r.recordings, false)|
    ensures var after := Run(r, cfg, events);
            after.ok == |Ended(after.recordings, true)| && after.failed == |Ended(after.recordings, false)|
    decreases |events|
  {
    hide Resolved, FirstCheck, CauseOf, RowOf, Ended, Incremented;
    if events != [] {
      var ev := events[0];
      if ev.Record? && ev.id in r.inFlight && r.inFlight[ev.id].Sent? {
        EndedGrow(r.recordings, Recording(r.inFlight[ev.id].attempt, ev.taken), true);
        EndedGrow(r.recordings, Recording(r.inFlight[ev.id].attempt, ev.taken), false);
      }
      MetricsCountOutcomes(Step(r, cfg, ev), cfg, events[1..]);
    }
  }

  lemma RestingBooks(r: Relay, cfg: Config)
    requires Books(r, cfg) && Unrecorded(r.inFlight) == {}
    ensures multiset(r.attempts) == Told(r.recordings) && |r.recordings| == |r.attempts|
  {
    hide Told, RowsOf, InScope;
    forall id | id in r.inFlight
      ensures !r.inFlight[id].Sent?
    {
      assert id !in Unrecorded(r.inFlight);
    }
    assert SentSet(r.inFlight) == {};
    ToldHas(r.recordings);
  }

  lemma RecordedInScope(r: Relay, cfg: Config)
    requires Books(r, cfg)
    ensures forall k :: 0 <= k < |r.recordings| ==> InScope(cfg, r.recordings[k].attempt.adm)
  {
    hide Told, RowsOf, InScope, SentSet;
    ToldHas(r.recordings);
    forall k | 0 <= k < |r.recordings|
      ensures InScope(cfg, r.recordings[k].attempt.adm)
    {
      assert r.recordings[k].attempt in multiset(r.attempts);
    }
  }

  lemma {:induction false} OneRowEach(recordings: seq<Recording>)
    requires forall k :: 0 <= k < |recordings| ==> recordings[k].attempt.adm.tx.Some? && recordings[k].taken
    ensures |RowsOf(recordings)| == |recordings|
    ensures forall k :: 0 <= k < |recordings| ==>
              RowsOf(recordings)[k] == RowOf(recordings[k].attempt.adm.tx.value, recordings[k].attempt.hash)
  {
    hide RowOf;
    if |recordings| > 0 {
      OneRowEach(recordings[..|recordings| - 1]);
    }
  }

  // ---------- the handler ----------

  /** One call with no other in between. */
  function Alone(r: Relay, cfg: Config, id: CallID, call: Call, a: Answers, hash: Option<string>,
                 recorded: bool, counted: bool): Relay
  {
    var checked := CheckStep(r, cfg, id, call, a);
    var sent := BroadcastStep(checked, id, hash);
    IncrementStep(RecordStep(sent, cfg, id, recorded), id, counted)
  }

  lemma AloneSummary(r: Relay, cfg: Config, id: CallID, call: Call, a: Answers, hash: Option<string>,
                     recorded: bool, counted: bool)
    requires id !in r.passed && id !in r.inFlight
    ensures var after := Alone(r, cfg, id, call, a, hash, recorded, counted);
            var resolved := Resolved(cfg, call, r.rows, a);
            if FirstCheck(call).Some? then after == r
            else if resolved.Err? then
              && after.rejects == r.rejects + [Rejection(id, CauseOf(resolved.error))]
              && (after.rows, after.ok, after.failed, after.attempts, after.audit)
                 == (r.rows, r.ok, r.failed, r.attempts, r.audit)
            else
              var adm := resolved.value;
              && after.rejects == r.rejects
              && after.attempts == r.attempts + [Attempt(id, adm, hash)]
              && after.audit == (if cfg.audit && adm.tx.Some? && recorded
                                 then r.audit + [RowOf(adm.tx.value, hash)] else r.audit)
              && after.ok == (if hash.Some? then r.ok + 1 else r.ok)
              && after.failed == (if hash.Some? then r.failed else r.failed + 1)
              && after.rows == (if hash.Some? && adm.tx.Some? && cfg.gates.quota && counted
                                then Incremented(r.rows, Slot(adm.tx.value.signer, adm.ws)) else r.rows)
  {
    hide Resolved, CauseOf, RowOf, Incremented, FirstCheck;
    if FirstCheck(call).None? && Resolved(cfg, call, r.rows, a).Ok? {
      FinishSummary(CheckStep(r, cfg, id, call, a), cfg, id, hash, recorded, counted);
    }
  }

  lemma FinishSummary(r: Relay, cfg: Config, id: CallID, hash: Option<string>, recorded: bool, counted: bool)
    requires id in r.inFlight && r.inFlight[id].Admitted?
    ensures var after := IncrementStep(RecordStep(BroadcastStep(r, id, hash), cfg, id, recorded), id, counted);
            var adm := r.inFlight[id].adm;
            && after.rejects == r.rejects
            && after.attempts == r.attempts + [Attempt(id, adm, hash)]
            && after.audit == (if cfg.audit && adm.tx.Some? && recorded
                                 then r.audit + [RowOf(adm.tx.value, hash)] else r.audit)
            && after.ok == (if hash.Some? then r.ok + 1 else r.ok)
            && after.failed == (if hash.Some? then r.failed else r.failed + 1)
            && after.rows == (if hash.Some? && adm.tx.Some? && cfg.gates.quota && counted
                              then Incremented(r.rows, Slot(adm.tx.value.signer, adm.ws)) else r.rows)
  {
    hide RowOf, Incremented;
    var sent := BroadcastStep(r, id, hash);
    var adm := r.inFlight[id].adm;
    assert sent.inFlight[id] == Sent(Attempt(id, adm, hash));
    var recording := RecordStep(sent, cfg, id, recorded);
    assert if hash.Some? && adm.tx.Some? && cfg.gates.quota
           then recording.inFlight[id] == Uncounted(Slot(adm.tx.value.signer, adm.ws)) else id !in recording.inFlight;
  }

  function Causes(rejects: seq<Rejection>): seq<Cause> {
    seq(|rejects|, i requires 0 <= i < |rejects| => rejects[i].cause)
  }

  function HexOf(attempts: seq<Attempt>): seq<string> {
    seq(|attempts|, i requires 0 <= i < |attempts| => attempts[i].adm.hex)
  }

  class SendRawTxHandler {
    const cfg: Config
    const quota: SignerQuotaStore
    var rejects: seq<Cause>
    var ok: nat
    var failed: nat
    var sent: seq<string>
    var audit: seq<AuditRow>
    ghost var relay: Relay

    ghost predicate Valid()
      reads this, quota
    {
      && relay.rows == quota.rows
      && Causes(relay.rejects) == rejects
      && relay.ok == ok && relay.failed == failed
      && HexOf(relay.attempts) == sent
      && relay.audit == audit
    }

    constructor (cfg: Config, quota: SignerQuotaStore)
      ensures Valid() && this.cfg == cfg && this.quota == quota && relay == Started(quota.rows)
    {
      this.cfg, this.quota := cfg, quota;
      rejects, ok, failed, sent, audit, relay := [], 0, 0, [], [], Started(quota.rows);
    }

    method RecordReject(cause: Cause)
      modifies this`rejects
      ensures rejects == old(rejects) + [cause]
    {
      rejects := rejects + [cause];
    }

    method DecodeAndScope(call: Call) returns (r: Result<Tx, SendError>)
      modifies this`rejects
      ensures r == ScopedTx(cfg, call)
      ensures rejects == old(rejects) + if r.Err? then [CauseOf(r.error)] else []
      ensures r.Ok? <==>
                && call.decoded.Some? && cfg.anchor.Some? && call.decoded.value.to == cfg.anchor
                && (call.decoded.value.value.None? || call.decoded.value.value == Some(0))
      ensures r.Ok? ==> Some(r.value) == call.decoded && rejects == old(rejects)
      ensures call.decoded.None? ==> r == Err(TxDecode) && rejects == old(rejects) + [CauseDecode]
      ensures call.decoded.Some? && cfg.anchor.None? ==>
                r == Err(InvalidAddress) && rejects == old(rejects) + [CauseAnchorMisconfig]
      ensures call.decoded.Some? && cfg.anchor.Some? && call.decoded.value.to != cfg.anchor ==>
                r == Err(RelayScopeRejected) && rejects == old(rejects) + [CauseRelayScope]
      ensures r == Err(RelayValueRejected) ==> rejects == old(rejects) + [CauseRelayScope]
    {
      if call.decoded.None? {
        RecordReject(CauseDecode);
        return Err(TxDecode);
      }
      if cfg.anchor.None? {
        RecordReject(CauseAnchorMisconfig);
        return Err(InvalidAddress);
      }
      var refusal := CheckRelayScope(call.decoded.value.to, call.decoded.value.value, cfg.anchor.value);
      if refusal.Some? {
        RecordReject(CauseRelayScope);
        return Err(refusal.value);
      }
      r := Ok(call.decoded.value);
    }

    /** Asks the blacklist first: a banned signer neither consults nor consumes quota. */
    method CheckSignerGates(signer: Address, a: Answers) returns (ws: Instant, refusal: Option<SendError>)
      modifies this`rejects
      ensures ws == WindowStart(a.now, cfg.gates.window)
      ensures refusal == GateRefusal(cfg.gates, signer, quota.rows, a)
      ensures rejects == old(rejects) + if refusal.Some? then [CauseOf(refusal.value)] else []
      ensures refusal.None? ==> rejects == old(rejects)
      ensures refusal == Some(BlacklistUnavailable) ==> rejects == old(rejects) + [CauseBlacklistStoreErr]
      ensures refusal == Some(SignerBlacklisted) ==> rejects == old(rejects) + [CauseSignerBlacklist]
      ensures refusal == Some(QuotaUnavailable) ==> rejects == old(rejects) + [CauseQuotaStoreErr]
      ensures refusal == Some(SignerQuotaExceeded) ==> rejects == old(rejects) + [CauseSignerQuota]
    {
      ws := WindowStart(a.now, cfg.gates.window);
      if cfg.gates.blacklist {
        if a.ban == BanUnknown && !cfg.gates.blacklistFailOpen {
          RecordReject(CauseBlacklistStoreErr);
          return ws, Some(BlacklistUnavailable);
        } else if a.ban == Banned {
          RecordReject(CauseSignerBlacklist);
          return ws, Some(SignerBlacklisted);
        }
      }
      if cfg.gates.quota {
        var n := quota.Count(Slot(signer, ws), a.counted);
        if n.None? && !cfg.gates.quotaFailOpen {
          RecordReject(CauseQuotaStoreErr);
          return ws, Some(QuotaUnavailable);
        } else if n.Some? && n.value >= cfg.gates.rate {
          RecordReject(CauseSignerQuota);
          return ws, Some(SignerQuotaExceeded);
        }
      }
      refusal := None;
    }

    method PrepareKeylessBroadcast(call: Call, a: Answers) returns (r: Result<Admission, SendError>)
      requires cfg.keylessWrites
      modifies this`rejects
      ensures r == Resolved(cfg, call, quota.rows, a)
      ensures rejects == old(rejects) + if r.Err? then [CauseOf(r.error)] else []
    {
      var tx := DecodeAndScope(call);
      if tx.Err? {
        return Err(tx.error);
      }
      var ws, refusal := CheckSignerGates(tx.value.signer, a);
      if refusal.Some? {
        return Err(refusal.value);
      }
      r := Ok(Admission(Some(tx.value), ws, tx.value.canonical));
    }

    method ResolveBroadcast(call: Call, a: Answers) returns (r: Result<Admission, SendError>)
      modifies this`rejects
      ensures r == Resolved(cfg, call, quota.rows, a)
      ensures rejects == old(rejects) + if r.Err? then [CauseOf(r.error)] else []
    {
      if cfg.keylessWrites {
        r := PrepareKeylessBroadcast(call, a);
        return;
      }
      if cfg.relayAllowAny {
        return Ok(Admission(call.decoded, 0, call.signedTx));
      }
      var tx := DecodeAndScope(call);
      if tx.Err? {
        return Err(tx.error);
      }
      r := Ok(Admission(Some(tx.value), 0, call.signedTx));
    }

    /** The node answers with a hash or rejects; recorded and counted say whether the audit store and
        the quota store took their row. */
    method Send(ghost id: CallID, call: Call, a: Answers, hash: Option<string>, recorded: bool, counted: bool)
      returns (r: Result<string, SendError>)
      requires Valid() && id !in relay.passed && id !in relay.inFlight
      modifies this, quota
      ensures Valid() && relay == Alone(old(relay), cfg, id, call, a, hash, recorded, counted)
      ensures r == match FirstCheck(call)
                   case Some(e) => Err(e)
                   case None =>
                     match Resolved(cfg, call, old(quota.rows), a)
                     case Err(e) => Err(e)
                     case Ok(_) => if hash.Some? then Ok(hash.value) else Err(NodeRejected)
      ensures !call.hasRole ==> r == Err(Forbidden)
      ensures call.hasRole && call.signedTx == "" ==> r == Err(MissingRequired)
      ensures !call.hasRole || call.signedTx == "" ==>
                && sent == old(sent) && audit == old(audit) && rejects == old(rejects)
                && ok == old(ok) && failed == old(failed) && quota.rows == old(quota.rows)
      ensures call.hasRole && call.signedTx != "" ==>
                var resolved := Resolved(cfg, call, old(quota.rows), a);
                if resolved.Err? then
                  && r == Err(resolved.error) && rejects == old(rejects) + [CauseOf(resolved.error)]
                  && sent == old(sent) && audit == old(audit)
                  && ok == old(ok) && failed == old(failed) && quota.rows == old(quota.rows)
                else
                  && r == (if hash.Some? then Ok(hash.value) else Err(NodeRejected))
                  && rejects == old(rejects)
                  && sent == old(sent) + [if cfg.keylessWrites then call.decoded.value.canonical else call.signedTx]
                  && ok == old(ok) + (if hash.Some? then 1 else 0)
                  && failed == old(failed) + (if hash.Some? then 0 else 1)
                  && |audit| == |old(audit)| + (if cfg.audit && call.decoded.Some? && recorded then 1 else 0)
                  && audit[..|old(audit)|] == old(audit)
                  && (hash.None? || call.decoded.None? || !cfg.gates.quota || !counted ==> quota.rows == old(quota.rows))
                  && (hash.Some? && call.decoded.Some? && cfg.gates.quota && counted ==>
                        var slot := Slot(call.decoded.value.signer, resolved.value.ws);
                        && slot in quota.rows
                        && quota.rows[slot] == (if slot in old(quota.rows) then old(quota.rows)[slot] else 0) + 1
                        && forall other :: other in quota.rows && other != slot ==>
                             other in old(quota.rows) && quota.rows[other] == old(quota.rows)[other])
    {
      hide Resolved, CauseOf, RowOf, CountOf, Incremented, Alone;
      AdmittedIff(cfg, call, quota.rows, a);
      AloneSummary(relay, cfg, id, call, a, hash, recorded, counted);
      relay := Alone(relay, cfg, id, call, a, hash, recorded, counted);
      if !call.hasRole {
        return Err(Forbidden);
      }
      if call.signedTx == "" {
        return Err(MissingRequired);
      }
      var adm := ResolveBroadcast(call, a);
      if adm.Err? {
        assert Causes(relay.rejects) == rejects;
        return Err(adm.error);
      }
      sent := sent + [adm.value.hex];
      assert HexOf(relay.attempts) == sent;
      var tx := adm.value.tx;
      if cfg.audit && tx.Some? && recorded {
        audit := audit + [RowOf(tx.value, hash)];
      }
      if hash.None? {
        failed := failed + 1;
        return Err(NodeRejected);
      }
      ok := ok + 1;
      if tx.Some? && cfg.gates.quota {
        quota.Increment(Slot(tx.value.signer, adm.value.ws), counted);
      }
      r := Ok(hash.value);
    }
  }
}
