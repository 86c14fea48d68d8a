/** internal/mcp/postgres_store.go: API keys in a table shared by replicas. Rows are named by client
    ID, and no two rows share a digest. A lookup reads a row and, in a second statement, may write the
    digest of the active pepper into the row of that ID; between the two, anything may happen. */
module PostgresKeys {
  import opened Outcomes
  import opened KeyHashing
  import opened KeyEntries

  type Table = map<string, KeyEntry>

  type Reader = nat

  /** Which row a key was issued to: the client, and the how manyeth row of that client it was. */
  datatype Owner = Owner(id: string, born: nat)

  /** A lookup between its two statements: the row and the key it read, the hasher it began with, and the
      rotations since. */
  datatype Pending = Pending(id: string, raw: RawKey, born: nat, hasher: Hasher, age: nat)

  /** The table, the peppers that new calls use, the lookups in flight, how many rows each client has had,
      and the keys ever issued. */
  datatype Deployment = Deployment(
    rows: Table, hasher: Hasher, inFlight: map<Reader, Pending>, born: map<string, nat>, issued: map<RawKey, Owner>)

  /** A Read names the row the database picked. */
  datatype Event =
    | Insert(id: string, raw: RawKey, roles: seq<string>, createdAt: Instant, expiresAt: Instant)
    | Change(id: string, upd: KeyUpdate)
    | Remove(id: string)
    | Read(who: Reader, id: string, raw: RawKey, now: Instant)
    | Rehash(who: Reader, saved: bool)
    | Rotate(pepper: Pepper)

  predicate HashTaken(rows: Table, id: string, hash: Digest) {
    exists i :: i in rows && i != id && rows[i].hash == hash
  }

  function Rehashed(e: KeyEntry, h: Hasher, raw: RawKey): KeyEntry {
    var c := HashForStore(h, raw);
    e.(hash := c.hash, version := c.version)
  }

  function BornOf(d: Deployment, id: string): nat {
    if id in d.born then d.born[id] else 0
  }

  predicate ResolvesTo(d: Deployment, raw: RawKey, id: string) {
    id in d.rows && Probed(d.hasher, raw, d.rows[id].hash)
  }

  predicate Usable(e: KeyEntry, now: Instant) {
    e.enabled && (e.expiresAt == 0 || now < e.expiresAt)
  }

  /** Whether an accepted entry is to be written again under the active pepper. */
  predicate Outdated(e: KeyEntry, h: Hasher, raw: RawKey) {
    Rehashed(e, h, raw) != e
  }

  function Older(p: Pending): Pending {
    p.(age := p.age + 1)
  }

  function Step(d: Deployment, ev: Event): Deployment {
    match ev
    case Insert(id, raw, roles, createdAt, expiresAt) =>
      var e := NewEntry(d.hasher, id, raw, roles, createdAt, expiresAt);
      if id in d.rows || HashTaken(d.rows, id, e.hash) then d
      else
        d.(rows := d.rows[id := e],
           born := d.born[id := BornOf(d, id) + 1],
           issued := d.issued[raw := Owner(id, BornOf(d, id) + 1)])
    case Change(id, upd) =>
      if id in d.rows then d.(rows := d.rows[id := Updated(d.rows[id], upd)]) else d
    case Remove(id) => d.(rows := d.rows - {id})
    case Read(who, id, raw, now) =>
      if who !in d.inFlight && ResolvesTo(d, raw, id) && Usable(d.rows[id], now) && Outdated(d.rows[id], d.hasher, raw)
      then d.(inFlight := d.inFlight[who := Pending(id, raw, BornOf(d, id), d.hasher, 0)])
      else d
    case Rehash(who, saved) =>
      if who !in d.inFlight then d
      else
        var p := d.inFlight[who];
        d.(inFlight := d.inFlight - {who},
           rows := if saved && p.id in d.rows && !HashTaken(d.rows, p.id, HashForStore(p.hasher, p.raw).hash)
                   then d.rows[p.id := Rehashed(d.rows[p.id], p.hasher, p.raw)] else d.rows)
    case Rotate(pepper) =>
      d.(hasher := Hasher(Some(pepper), d.hasher.active),
         inFlight := map w | w in d.inFlight :: Older(d.inFlight[w]))
  }

  function Run(d: Deployment, events: seq<Event>): Deployment
    decreases |events|
  {
    if events == [] then d else Run(Step(d, events[0]), events[1..])
  }

  // ---------- whose key a row holds ----------

  function RawOf(hash: Digest): Option<RawKey> {
    match hash
    case NoDigest => None
    case Plain(raw) => Some(raw)
    case Keyed(_, raw) => Some(raw)
  }

  ghost predicate Holds(rows: Table, id: string, raw: RawKey) {
    id in rows && RawOf(rows[id].hash) == Some(raw)
  }

  /** The key of a row was issued to its client, though maybe to an earlier row of it. */
  ghost predicate ClientsKey(d: Deployment, id: string) {
    id in d.rows ==>
      && RawOf(d.rows[id].hash).Some?
      && RawOf(d.rows[id].hash).value in d.issued
      && d.issued[RawOf(d.rows[id].hash).value].id == id
  }

  ghost predicate KnownRead(d: Deployment, who: Reader) {
    who in d.inFlight ==>
      && d.inFlight[who].raw in d.issued
      && d.issued[d.inFlight[who].raw].id == d.inFlight[who].id
      && d.inFlight[who].born <= BornOf(d, d.inFlight[who].id)
      && match d.inFlight[who].age
         case 0 => d.inFlight[who].hasher.active == d.hasher.active
         case 1 =>
           && d.inFlight[who].hasher.active == d.hasher.previous
           && (d.hasher.previous.Some? ==> d.hasher.previous != d.hasher.active)
         case _ => d.inFlight[who].hasher.active.Some? ==>
                     d.inFlight[who].hasher.active !in {d.hasher.active, d.hasher.previous}
  }

  ghost predicate IssuedOnce(d: Deployment) {
    && (forall r :: r in d.issued ==> 1 <= d.issued[r].born <= BornOf(d, d.issued[r].id))
    && forall r, s :: r in d.issued && s in d.issued && d.issued[r] == d.issued[s] ==> r == s
  }

  ghost predicate Sound(d: Deployment) {
    && (forall id :: ClientsKey(d, id))
    && (forall who :: KnownRead(d, who))
    && IssuedOnce(d)
  }

  ghost predicate PepperUnused(d: Deployment, pepper: Pepper) {
    && d.hasher.active != Some(pepper)
    && d.hasher.previous != Some(pepper)
    && (forall i :: i in d.rows && d.rows[i].hash.Keyed? ==> d.rows[i].hash.pepper != pepper)
    && forall w :: w in d.inFlight ==> d.inFlight[w].hasher.active != Some(pepper)
  }

  /** Generated keys and new peppers do not repeat. */
  ghost predicate Proper(d: Deployment, ev: Event) {
    && (ev.Insert? ==> ev.raw !in d.issued)
    && (ev.Rotate? ==> PepperUnused(d, ev.pepper))
  }

  ghost predicate ProperRun(d: Deployment, events: seq<Event>)
    decreases |events|
  {
    events != [] ==> Proper(d, events[0]) && ProperRun(Step(d, events[0]), events[1..])
  }

  ghost predicate Unknown(d: Deployment, raw: RawKey) {
    forall id :: id in d.rows ==> !ResolvesTo(d, raw, id)
  }

  lemma StoredRaw(h: Hasher, raw: RawKey)
    ensures RawOf(HashForStore(h, raw).hash) == Some(raw)
  {
  }

  /** No other row can have taken a digest of a client's key. */
  lemma NeverTaken(d: Deployment, id: string, hash: Digest)
    requires Sound(d) && RawOf(hash).Some?
    requires RawOf(hash).value in d.issued ==> d.issued[RawOf(hash).value].id == id
    ensures !HashTaken(d.rows, id, hash)
  {
    forall i | i in d.rows && i != id
      ensures d.rows[i].hash != hash
    {
      assert ClientsKey(d, i);
    }
  }

  /** A key resolves to one row at most, a row of the client it was issued to. */
  lemma ResolvesToItsClient(d: Deployment, raw: RawKey, id: string, other: string)
    requires Sound(d) && ResolvesTo(d, raw, id)
    ensures Holds(d.rows, id, raw) && raw in d.issued && d.issued[raw].id == id
    ensures ResolvesTo(d, raw, other) ==> other == id
  {
    assert ClientsKey(d, id) && ClientsKey(d, other);
  }

  function RawsOf(rows: Table): set<RawKey> {
    set id | id in rows && RawOf(rows[id].hash).Some? :: RawOf(rows[id].hash).value
  }

  ghost function HolderOf(rows: Table, raw: RawKey): string
    requires raw in RawsOf(rows)
    ensures Holds(rows, HolderOf(rows, raw), raw)
  {
    var id :| id in rows && RawOf(rows[id].hash) == Some(raw);
    id
  }

  /** Every table in which each row holds a key of its own is a start for the runs below. */
  lemma EveryTableIsAStart(rows: Table, h: Hasher) returns (d: Deployment)
    requires forall i :: i in rows ==> rows[i].hash != NoDigest
    requires forall i, j :: i in rows && j in rows && i != j ==> RawOf(rows[i].hash) != RawOf(rows[j].hash)
    ensures d.rows == rows && d.hasher == h
    ensures Sound(d) && AllOwnKeys(d) && OwnReads(d)
  {
    var born := map id | id in rows :: 1;
    var issued := map raw | raw in RawsOf(rows) :: Owner(HolderOf(rows, raw), 1);
    d := Deployment(rows, h, map[], born, issued);
    forall id
      ensures OwnKey(d, id) && ClientsKey(d, id)
    {
      if id in rows {
        assert RawOf(rows[id].hash).value in RawsOf(rows);
        assert Holds(rows, HolderOf(rows, RawOf(rows[id].hash).value), RawOf(rows[id].hash).value);
      }
    }
    assert forall r :: r in issued ==> Holds(rows, issued[r].id, r);
  }

  // ---------- every step, races included ----------

  /** Nothing but an insertion gives a row its key, except a rehash that lands. */
  lemma StepRow(d: Deployment, ev: Event, id: string)
    requires Sound(d)
    ensures var next := Step(d, ev).rows;
            if Lands(d, ev) && d.inFlight[ev.who].id == id then
              id in next && next[id] == Rehashed(d.rows[id], d.inFlight[ev.who].hasher, d.inFlight[ev.who].raw)
            else if ev.Insert? && ev.id == id && id !in d.rows then
              id in next ==> RawOf(next[id].hash) == Some(ev.raw)
            else if ev == Remove(id) then id !in next
            else (id in next <==> id in d.rows) && (id in next ==> next[id].hash == d.rows[id].hash)
  {
    hide IssuedOnce, ClientsKey, HashForStore;
    if Lands(d, ev) && d.inFlight[ev.who].id == id {
      LandingIsNotTaken(d, ev);
    }
    if ev.Insert? {
      StoredRaw(d.hasher, ev.raw);
    }
  }

  /** A rehash that reaches the table and finds a row under its client's ID. */
  predicate Lands(d: Deployment, ev: Event) {
    ev.Rehash? && ev.saved && ev.who in d.inFlight && d.inFlight[ev.who].id in d.rows
  }

  lemma LandingIsNotTaken(d: Deployment, ev: Event)
    requires Sound(d) && Lands(d, ev)
    ensures !HashTaken(d.rows, d.inFlight[ev.who].id, HashForStore(d.inFlight[ev.who].hasher, d.inFlight[ev.who].raw).hash)
  {
    var p := d.inFlight[ev.who];
    assert KnownRead(d, ev.who);
    StoredRaw(p.hasher, p.raw);
    NeverTaken(d, p.id, HashForStore(p.hasher, p.raw).hash);
  }

  lemma StepKeepsClientsKey(d: Deployment, ev: Event, id: string)
    requires Sound(d) && Proper(d, ev)
    ensures ClientsKey(Step(d, ev), id)
  {
    StepRow(d, ev, id);
    assert ClientsKey(d, id);
    if Lands(d, ev) {
      assert KnownRead(d, ev.who);
      StoredRaw(d.inFlight[ev.who].hasher, d.inFlight[ev.who].raw);
    }
    hide Rehashed, NewEntry, HashForStore, Updated;
  }

  lemma StepKeepsKnownRead(d: Deployment, ev: Event, who: Reader)
    requires Sound(d) && Proper(d, ev)
    ensures KnownRead(Step(d, ev), who)
  {
    assert KnownRead(d, who);
    if ev.Read? {
      assert ClientsKey(d, ev.id);
    }
    hide Rehashed, NewEntry, HashForStore, Updated, HashTaken;
  }

  lemma StepKeepsIssuedOnce(d: Deployment, ev: Event)
    requires IssuedOnce(d) && Proper(d, ev)
    ensures IssuedOnce(Step(d, ev))
  {
    hide Rehashed, NewEntry, HashForStore, Updated, HashTaken;
  }

  lemma StepKeepsSound(d: Deployment, ev: Event)
    requires Sound(d) && Proper(d, ev)
    ensures Sound(Step(d, ev))
  {
    hide ClientsKey, KnownRead, IssuedOnce, Step, Proper;
    forall id
      ensures ClientsKey(Step(d, ev), id)
    {
      StepKeepsClientsKey(d, ev, id);
    }
    forall who
      ensures KnownRead(Step(d, ev), who)
    {
      StepKeepsKnownRead(d, ev, who);
    }
    StepKeepsIssuedOnce(d, ev);
  }

  /** In every run, whatever races: a key never opens a row of another client than the one it was
      issued to, and never more than one row. */
  lemma {:induction false} KeysStayWithClients(d: Deployment, events: seq<Event>, raw: RawKey, id: string, other: string)
    requires Sound(d) && ProperRun(d, events)
    ensures var after := Run(d, events);
            && Sound(after)
            && (ResolvesTo(after, raw, id) ==> raw in after.issued && after.issued[raw].id == id)
            && (ResolvesTo(after, raw, id) && ResolvesTo(after, raw, other) ==> id == other)
    decreases |events|
  {
    hide Sound, Proper, Step, ResolvesTo;
    if events == [] {
      if ResolvesTo(d, raw, id) {
        ResolvesToItsClient(d, raw, id, other);
      }
    } else {
      StepKeepsSound(d, events[0]);
      KeysStayWithClients(Step(d, events[0]), events[1..], raw, id, other);
    }
  }

  // ---------- the race ----------

  /** A row holds the key it was created with. */
  ghost predicate OwnKey(d: Deployment, id: string) {
    id in d.rows ==>
      && RawOf(d.rows[id].hash).Some?
      && RawOf(d.rows[id].hash).value in d.issued
      && d.issued[RawOf(d.rows[id].hash).value] == Owner(id, BornOf(d, id))
  }

  ghost predicate AllOwnKeys(d: Deployment) {
    forall id :: OwnKey(d, id)
  }

  /** The row a key was issued to is no longer there. */
  predicate Gone(d: Deployment, raw: RawKey) {
    raw in d.issued && !(d.issued[raw].id in d.rows && BornOf(d, d.issued[raw].id) == d.issued[raw].born)
  }

  ghost predicate RemovedKeysDead(d: Deployment) {
    forall raw, id :: Gone(d, raw) ==> !Holds(d.rows, id, raw)
  }

  /** Rows keep their own keys exactly when the keys of removed rows open nothing. */
  lemma OwnKeysIffRemovedDead(d: Deployment)
    requires Sound(d)
    ensures AllOwnKeys(d) <==> RemovedKeysDead(d)
  {
    if AllOwnKeys(d) {
      forall raw, id | Gone(d, raw)
        ensures !Holds(d.rows, id, raw)
      {
        assert OwnKey(d, id);
      }
    } else {
      var id :| !OwnKey(d, id);
      assert ClientsKey(d, id);
      var raw := RawOf(d.rows[id].hash).value;
      assert Gone(d, raw) && Holds(d.rows, id, raw);
    }
  }

  /** A rehash that lands on a row of its client that was inserted after its own read. */
  predicate Strays(d: Deployment, ev: Event) {
    Lands(d, ev) && d.inFlight[ev.who].born != BornOf(d, d.inFlight[ev.who].id)
  }

  ghost predicate OwnReads(d: Deployment) {
    forall who :: who in d.inFlight ==>
                    && d.inFlight[who].raw in d.issued
                    && d.issued[d.inFlight[who].raw] == Owner(d.inFlight[who].id, d.inFlight[who].born)
  }

  lemma OwnKeyStep(d: Deployment, ev: Event, id: string)
    requires Sound(d) && OwnKey(d, id) && OwnReads(d) && Proper(d, ev)
    ensures OwnKey(Step(d, ev), id) <==> !(Strays(d, ev) && d.inFlight[ev.who].id == id)
  {
    StepRow(d, ev, id);
    if Lands(d, ev) {
      StoredRaw(d.inFlight[ev.who].hasher, d.inFlight[ev.who].raw);
    }
    hide Rehashed, NewEntry, HashForStore, Updated, ClientsKey, KnownRead;
  }

  lemma OwnReadsStep(d: Deployment, ev: Event)
    requires AllOwnKeys(d) && OwnReads(d) && Proper(d, ev)
    ensures OwnReads(Step(d, ev))
  {
    if ev.Read? {
      assert OwnKey(d, ev.id);
    }
    hide Rehashed, NewEntry, HashForStore, Updated, HashTaken, OwnKey;
  }

  lemma AllOwnKeysStepIff(d: Deployment, ev: Event)
    requires Sound(d) && AllOwnKeys(d) && OwnReads(d) && Proper(d, ev)
    ensures AllOwnKeys(Step(d, ev)) <==> !Strays(d, ev)
  {
    hide Sound, OwnKey, OwnReads, Proper, Step;
    forall id
      ensures OwnKey(Step(d, ev), id) <==> !(Strays(d, ev) && d.inFlight[ev.who].id == id)
    {
      assert OwnKey(d, id);
      OwnKeyStep(d, ev, id);
    }
    if Strays(d, ev) {
      assert !OwnKey(Step(d, ev), d.inFlight[ev.who].id);
    }
  }

  ghost predicate AlwaysOwnKeys(d: Deployment, events: seq<Event>)
    decreases |events|
  {
    && AllOwnKeys(d) && RemovedKeysDead(d)
    && (events != [] ==> AlwaysOwnKeys(Step(d, events[0]), events[1..]))
  }

  ghost predicate SomeStray(d: Deployment, events: seq<Event>)
    decreases |events|
  {
    events != [] && (Strays(d, events[0]) || SomeStray(Step(d, events[0]), events[1..]))
  }

  /** In every run: at all times every row holds the key it was created with and the keys of removed rows
      open nothing, if and only if no saved rehash lands on an ID that was removed and inserted again
      since its own read. */
  lemma {:induction false} OwnKeysIffNoStray(d: Deployment, events: seq<Event>)
    requires Sound(d) && AllOwnKeys(d) && OwnReads(d) && ProperRun(d, events)
    ensures AlwaysOwnKeys(d, events) <==> !SomeStray(d, events)
    decreases |events|
  {
    hide Sound, AllOwnKeys, OwnReads, Proper, Step, Strays, RemovedKeysDead;
    OwnKeysIffRemovedDead(d);
    if events != [] {
      var next := Step(d, events[0]);
      StepKeepsSound(d, events[0]);
      AllOwnKeysStepIff(d, events[0]);
      OwnReadsStep(d, events[0]);
      if Strays(d, events[0]) {
        assert !AlwaysOwnKeys(next, events[1..]);
      } else {
        OwnKeysIffNoStray(next, events[1..]);
      }
    }
  }

  // ---------- the key of a removed row ----------

  ghost predicate Unheld(d: Deployment, raw: RawKey) {
    forall id :: !Holds(d.rows, id, raw)
  }

  ghost predicate AlwaysUnheld(d: Deployment, events: seq<Event>, raw: RawKey)
    decreases |events|
  {
    && Unheld(d, raw)
    && (events != [] ==> AlwaysUnheld(Step(d, events[0]), events[1..], raw))
  }

  predicate Revives(d: Deployment, ev: Event, raw: RawKey) {
    Lands(d, ev) && d.inFlight[ev.who].raw == raw
  }

  ghost predicate SomeRevival(d: Deployment, events: seq<Event>, raw: RawKey)
    decreases |events|
  {
    events != [] && (Revives(d, events[0], raw) || SomeRevival(Step(d, events[0]), events[1..], raw))
  }

  lemma UnheldStepIff(d: Deployment, ev: Event, raw: RawKey)
    requires Sound(d) && Proper(d, ev) && raw in d.issued && Unheld(d, raw)
    ensures Unheld(Step(d, ev), raw) <==> !Revives(d, ev, raw)
    ensures raw in Step(d, ev).issued
  {
    hide Sound, Step;
    if Lands(d, ev) {
      StoredRaw(d.inFlight[ev.who].hasher, d.inFlight[ev.who].raw);
    }
    forall id
      ensures Holds(Step(d, ev).rows, id, raw) <==> Revives(d, ev, raw) && d.inFlight[ev.who].id == id
    {
      assert !Holds(d.rows, id, raw);
      StepRow(d, ev, id);
      hide HashForStore;
    }
    if Revives(d, ev, raw) {
      assert Holds(Step(d, ev).rows, d.inFlight[ev.who].id, raw);
    }
    IssuedStays(d, ev, raw);
  }

  lemma IssuedStays(d: Deployment, ev: Event, raw: RawKey)
    requires raw in d.issued
    ensures raw in Step(d, ev).issued
  {
  }

  /** A key that no row holds is never held again, if and only if no rehash of a lookup that read it before
      lands on a row its client has been given since. */
  lemma {:induction false} UnheldKeyStaysUnheldIff(d: Deployment, events: seq<Event>, raw: RawKey)
    requires Sound(d) && ProperRun(d, events) && raw in d.issued && Unheld(d, raw)
    ensures AlwaysUnheld(d, events, raw) <==> !SomeRevival(d, events, raw)
    decreases |events|
  {
    hide Sound, Proper, Step, Unheld, Revives;
    if events != [] {
      StepKeepsSound(d, events[0]);
      UnheldStepIff(d, events[0], raw);
      if Revives(d, events[0], raw) {
        assert !AlwaysUnheld(Step(d, events[0]), events[1..], raw);
      } else {
        UnheldKeyStaysUnheldIff(Step(d, events[0]), events[1..], raw);
      }
    }
  }

  /** A landing rehash whose digest new calls still probe: two rotations have not overtaken it. */
  predicate RevivesLive(d: Deployment, ev: Event, raw: RawKey) {
    Revives(d, ev, raw) && (d.inFlight[ev.who].age <= 1 || d.inFlight[ev.who].hasher.active.None?)
  }

  ghost predicate AlwaysUnknown(d: Deployment, events: seq<Event>, raw: RawKey)
    decreases |events|
  {
    && Unknown(d, raw)
    && (events != [] ==> AlwaysUnknown(Step(d, events[0]), events[1..], raw))
  }

  ghost predicate SomeLiveRevival(d: Deployment, events: seq<Event>, raw: RawKey)
    decreases |events|
  {
    events != [] && (RevivesLive(d, events[0], raw) || SomeLiveRevival(Step(d, events[0]), events[1..], raw))
  }

  /** What a landing rehash leaves under its client's ID. */
  lemma LandedRow(d: Deployment, ev: Event, probe: RawKey)
    requires Sound(d) && Lands(d, ev)
    ensures var p := d.inFlight[ev.who];
            ResolvesTo(Step(d, ev), probe, p.id) <==> probe == p.raw && RevivesLive(d, ev, probe)
  {
    var p := d.inFlight[ev.who];
    assert KnownRead(d, ev.who);
    LandingIsNotTaken(d, ev);
  }

  /** A row nothing lands on resolves from a key after a step only if it did before, or was just inserted. */
  lemma UntouchedRow(d: Deployment, ev: Event, id: string, raw: RawKey)
    requires Sound(d) && Proper(d, ev) && raw in d.issued && !ResolvesTo(d, raw, id)
    requires !(Lands(d, ev) && d.inFlight[ev.who].id == id)
    ensures !ResolvesTo(Step(d, ev), raw, id)
  {
    hide Sound;
    StepRow(d, ev, id);
    hide HashForStore, NewEntry, Rehashed, Updated, HashTaken;
  }

  lemma UnknownStepIff(d: Deployment, ev: Event, raw: RawKey)
    requires Sound(d) && Proper(d, ev) && raw in d.issued && Unknown(d, raw)
    ensures Unknown(Step(d, ev), raw) <==> !RevivesLive(d, ev, raw)
    ensures raw in Step(d, ev).issued
  {
    hide Sound, Step, Proper, ResolvesTo;
    IssuedStays(d, ev, raw);
    forall id
      ensures ResolvesTo(Step(d, ev), raw, id) <==> RevivesLive(d, ev, raw) && d.inFlight[ev.who].id == id
    {
      NoRowNoMatch(d, raw, id);
      if Lands(d, ev) && d.inFlight[ev.who].id == id {
        LandedRow(d, ev, raw);
      } else {
        UntouchedRow(d, ev, id, raw);
      }
    }
    if RevivesLive(d, ev, raw) {
      NoRowNoMatch(Step(d, ev), raw, d.inFlight[ev.who].id);
    }
  }

  lemma NoRowNoMatch(d: Deployment, raw: RawKey, id: string)
    ensures id !in d.rows ==> !ResolvesTo(d, raw, id)
  {
  }

  /** Once an issued key opens nothing, for whatever reason, it never opens anything again, if and only if no
      rehash of a lookup that read it before lands, other than one that two rotations have overtaken. */
  lemma {:induction false} DeadKeyStaysDeadIff(d: Deployment, events: seq<Event>, raw: RawKey)
    requires Sound(d) && ProperRun(d, events) && raw in d.issued && Unknown(d, raw)
    ensures AlwaysUnknown(d, events, raw) <==> !SomeLiveRevival(d, events, raw)
    decreases |events|
  {
    hide Sound, Proper, Step, Unknown, RevivesLive;
    if events != [] {
      StepKeepsSound(d, events[0]);
      UnknownStepIff(d, events[0], raw);
      if RevivesLive(d, events[0], raw) {
        assert !AlwaysUnknown(Step(d, events[0]), events[1..], raw);
      } else {
        DeadKeyStaysDeadIff(Step(d, events[0]), events[1..], raw);
      }
    }
  }

  lemma Unroll(d: Deployment, e: Event, rest: seq<Event>)
    ensures Run(d, [e] + rest) == Run(Step(d, e), rest)
    ensures ProperRun(d, [e] + rest) <==> Proper(d, e) && ProperRun(Step(d, e), rest)
    ensures SomeStray(d, [e] + rest) <==> Strays(d, e) || SomeStray(Step(d, e), rest)
    ensures Run(d, []) == d && ProperRun(d, [])
  {
    assert ([e] + rest)[1..] == rest;
  }

  lemma FourSteps(d: Deployment, e0: Event, e1: Event, e2: Event, e3: Event)
    ensures var d1 := Step(d, e0); var d2 := Step(d1, e1); var d3 := Step(d2, e2);
            && Run(d, [e0, e1, e2, e3]) == Step(d3, e3)
            && (ProperRun(d, [e0, e1, e2, e3]) <==> Proper(d, e0) && Proper(d1, e1) && Proper(d2, e2) && Proper(d3, e3))
            && (Strays(d3, e3) ==> SomeStray(d, [e0, e1, e2, e3]))
  {
    hide *;
    var d1 := Step(d, e0);
    var d2 := Step(d1, e1);
    var d3 := Step(d2, e2);
    assert [e0, e1, e2, e3] == [e0] + [e1, e2, e3] && [e1, e2, e3] == [e1] + [e2, e3];
    assert [e2, e3] == [e2] + [e3] && [e3] == [e3] + [];
    Unroll(d, e0, [e1, e2, e3]);
    Unroll(d1, e1, [e2, e3]);
    Unroll(d2, e2, [e3]);
    Unroll(d3, e3, []);
    Unroll(Step(d3, e3), e3, []);
  }

  /** Such a run, from every deployment with a row to rehash: the client is removed and created again
      while a lookup of its first key is in flight. Then the new key is dead and the removed one is back. */
  lemma LateRehashSwapsKeys(d: Deployment, who: Reader, id: string, raw: RawKey, next: RawKey, now: Instant)
    requires Sound(d) && who !in d.inFlight && next !in d.issued
    requires ResolvesTo(d, raw, id) && Usable(d.rows[id], now) && Outdated(d.rows[id], d.hasher, raw)
    ensures var run := [Read(who, id, raw, now), Remove(id), Insert(id, next, [], now, 0), Rehash(who, true)];
            && ProperRun(d, run) && SomeStray(d, run)
            && ResolvesTo(Run(d, run), raw, id)
            && !ResolvesTo(Run(d, run), next, id)
  {
    hide Sound, HashForStore, Updated, Usable, Rehashed, NewEntry, HashTaken;
    var e0, e1, e2, e3 := Read(who, id, raw, now), Remove(id), Insert(id, next, [], now, 0), Rehash(who, true);
    FourSteps(d, e0, e1, e2, e3);
    hide Run, ProperRun, SomeStray;
    var d1 := Step(d, e0);
    var d2 := Step(d1, e1);
    var d3 := Step(d2, e2);
    ResolvesToItsClient(d, raw, id, id);
    StepKeepsSound(d, e0);
    StepKeepsSound(d1, e1);
    StepKeepsSound(d2, e2);
    NewRow(d2, e2);
    assert d3.inFlight[who] == Pending(id, raw, BornOf(d, id), d.hasher, 0);
    RehashedRow(d3, e3);
  }

  /** A new row holds its key, under the active pepper, and is the next one of its client. */
  lemma NewRow(d: Deployment, ev: Event)
    requires Sound(d) && ev.Insert? && Proper(d, ev) && ev.id !in d.rows
    ensures var after := Step(d, ev);
            && Holds(after.rows, ev.id, ev.raw)
            && after.rows[ev.id].hash == HashForStore(d.hasher, ev.raw).hash
            && ResolvesTo(after, ev.raw, ev.id)
            && BornOf(after, ev.id) == BornOf(d, ev.id) + 1
            && after.issued[ev.raw] == Owner(ev.id, BornOf(d, ev.id) + 1)
            && after.inFlight == d.inFlight
  {
    hide Sound;
    StoredRaw(d.hasher, ev.raw);
    NeverTaken(d, ev.id, HashForStore(d.hasher, ev.raw).hash);
    StoredDigestIsProbed(d.hasher, ev.raw);
    hide HashForStore, HashTaken;
  }

  lemma RehashedRow(d: Deployment, ev: Event)
    requires Sound(d) && Lands(d, ev)
    ensures var after, p := Step(d, ev), d.inFlight[ev.who];
            && Holds(after.rows, p.id, p.raw)
            && after.rows[p.id].hash == HashForStore(p.hasher, p.raw).hash
            && (p.age == 0 ==> ResolvesTo(after, p.raw, p.id))
            && forall other :: other != p.raw ==> !ResolvesTo(after, other, p.id)
  {
    var p := d.inFlight[ev.who];
    assert KnownRead(d, ev.who);
    LandingIsNotTaken(d, ev);
    StoredRaw(p.hasher, p.raw);
  }

  // ---------- how a digest ages ----------

  datatype Standing = Legacy | Current | Aging | Lost

  function StandingOf(h: Hasher, hash: Digest): Standing {
    match hash
    case NoDigest => Lost
    case Plain(_) => Legacy
    case Keyed(pepper, _) =>
      if h.active == Some(pepper) then Current
      else if h.previous == Some(pepper) then Aging
      else Lost
  }

  /** What matters to the digest of one row: a rotation, or a rehash that lands, with the number of
      rotations since its lookup began and whether it began with a pepper. */
  datatype Tick = Turn | Renewed(age: nat, peppered: bool) | Still

  function TickOf(d: Deployment, ev: Event, id: string): Tick {
    if ev.Rotate? then Turn
    else if Lands(d, ev) && d.inFlight[ev.who].id == id
    then Renewed(d.inFlight[ev.who].age, d.inFlight[ev.who].hasher.active.Some?)
    else Still
  }

  function Ticks(d: Deployment, events: seq<Event>, id: string): seq<Tick>
    decreases |events|
  {
    if events == [] then [] else [TickOf(d, events[0], id)] + Ticks(Step(d, events[0]), events[1..], id)
  }

  /** A rehash that was overtaken by a rotation writes a digest that is already aging, or lost. */
  function RenewedStanding(tick: Tick): Standing
    requires tick.Renewed?
  {
    if !tick.peppered then Legacy
    else if tick.age == 0 then Current
    else if tick.age == 1 then Aging
    else Lost
  }

  function Aged(s: Standing, tick: Tick): Standing {
    match tick
    case Still => s
    case Renewed(_, _) => RenewedStanding(tick)
    case Turn =>
      match s
      case Legacy => Legacy
      case Current => Aging
      case Aging => Lost
      case Lost => Lost
  }

  function AgedBy(s: Standing, ticks: seq<Tick>): Standing
    decreases |ticks|
  {
    if ticks == [] then s else AgedBy(Aged(s, ticks[0]), ticks[1..])
  }

  lemma StandingSteps(d: Deployment, ev: Event, id: string)
    requires Sound(d) && Proper(d, ev) && id in d.rows && ev != Remove(id)
    ensures id in Step(d, ev).rows
    ensures StandingOf(Step(d, ev).hasher, Step(d, ev).rows[id].hash)
         == Aged(StandingOf(d.hasher, d.rows[id].hash), TickOf(d, ev, id))
  {
    StepRow(d, ev, id);
    assert ClientsKey(d, id);
    if Lands(d, ev) {
      assert KnownRead(d, ev.who);
    }
    hide Sound, NewEntry, Updated, HashTaken;
  }

  lemma ResolvesIffStanding(d: Deployment, id: string, raw: RawKey, probe: RawKey)
    requires Holds(d.rows, id, raw)
    ensures ResolvesTo(d, probe, id) <==> probe == raw && StandingOf(d.hasher, d.rows[id].hash) != Lost
  {
  }

  /** A rehash of another key lands on the row: of a key of an earlier row of the client. */
  ghost predicate SomeoneElseLands(d: Deployment, events: seq<Event>, id: string, raw: RawKey)
    decreases |events|
  {
    events != [] &&
      (|| (Lands(d, events[0]) && d.inFlight[events[0].who].id == id && d.inFlight[events[0].who].raw != raw)
       || SomeoneElseLands(Step(d, events[0]), events[1..], id, raw))
  }

  /** Over every run in which a client is not removed and no rehash of an earlier key of it lands: its row
      resolves from its key exactly while its digest is not lost, and from no other key. */
  lemma {:induction false} KeyResolvesIff(d: Deployment, events: seq<Event>, id: string, raw: RawKey, probe: RawKey)
    requires Sound(d) && ProperRun(d, events) && Holds(d.rows, id, raw) && Remove(id) !in events
    requires !SomeoneElseLands(d, events, id, raw)
    ensures Holds(Run(d, events).rows, id, raw)
    ensures ResolvesTo(Run(d, events), probe, id) <==>
            probe == raw && AgedBy(StandingOf(d.hasher, d.rows[id].hash), Ticks(d, events, id)) != Lost
    decreases |events|
  {
    hide Sound, Proper, Step, ResolvesTo, StandingOf, Aged, TickOf, Lands;
    if events == [] {
      ResolvesIffStanding(d, id, raw, probe);
    } else {
      StepKeepsSound(d, events[0]);
      StandingSteps(d, events[0], id);
      HolderStays(d, events[0], id, raw);
      KeyResolvesIff(Step(d, events[0]), events[1..], id, raw, probe);
      assert Ticks(d, events, id)[1..] == Ticks(Step(d, events[0]), events[1..], id);
    }
  }

  lemma HolderStays(d: Deployment, ev: Event, id: string, raw: RawKey)
    requires Sound(d) && Holds(d.rows, id, raw) && ev != Remove(id)
    requires !(Lands(d, ev) && d.inFlight[ev.who].id == id && d.inFlight[ev.who].raw != raw)
    ensures Holds(Step(d, ev).rows, id, raw)
  {
    hide Sound, Step, HashForStore;
    StepRow(d, ev, id);
    if Lands(d, ev) {
      StoredRaw(d.inFlight[ev.who].hasher, d.inFlight[ev.who].raw);
    }
  }

  /** When no lookup of an earlier key of the client is in flight, none lands later. */
  lemma {:induction false} NoOldReadsNoneLands(d: Deployment, events: seq<Event>, id: string, raw: RawKey)
    requires Sound(d) && ProperRun(d, events) && Holds(d.rows, id, raw) && Remove(id) !in events
    requires forall w :: w in d.inFlight && d.inFlight[w].id == id ==> d.inFlight[w].raw == raw
    ensures !SomeoneElseLands(d, events, id, raw)
    decreases |events|
  {
    hide Sound, Proper;
    if events != [] {
      StepKeepsSound(d, events[0]);
      HolderStays(d, events[0], id, raw);
      if events[0].Read? && events[0].id == id && ResolvesTo(d, events[0].raw, id) {
        ResolvesIffStanding(d, id, raw, events[0].raw);
      }
      hide ResolvesTo;
      NoOldReadsNoneLands(Step(d, events[0]), events[1..], id, raw);
    }
  }

  // ---------- when a digest is lost ----------

  /** Before each rotation the row was last written under the pepper that is then active, and no rehash
      lands that two rotations have overtaken. */
  ghost predicate RefreshedBetweenRotations(ticks: seq<Tick>, refreshed: bool)
    decreases |ticks|
  {
    ticks != [] ==>
      match ticks[0]
      case Turn => refreshed && RefreshedBetweenRotations(ticks[1..], false)
      case Renewed(age, peppered) =>
        && (age <= 1 || !peppered)
        && RefreshedBetweenRotations(ticks[1..], age == 0 || !peppered)
      case Still => RefreshedBetweenRotations(ticks[1..], refreshed)
  }

  lemma {:induction false} RefreshedKeyIsKept(s: Standing, ticks: seq<Tick>, refreshed: bool)
    requires RefreshedBetweenRotations(ticks, refreshed)
    requires if refreshed then s == Legacy || s == Current else s != Lost
    ensures AgedBy(s, ticks) != Lost
    decreases |ticks|
  {
    if ticks != [] {
      var refreshed' := match ticks[0]
                        case Turn => false
                        case Renewed(age, peppered) => age == 0 || !peppered
                        case Still => refreshed;
      RefreshedKeyIsKept(Aged(s, ticks[0]), ticks[1..], refreshed');
    }
  }

  /** So in every run in which a client is not removed, no rehash of an earlier key of it lands, and its row
      is rehashed between rotations: the row resolves from its key, and from no other. */
  lemma RefreshedRowResolves(
    d: Deployment, events: seq<Event>, id: string, raw: RawKey, probe: RawKey, refreshed: bool)
    requires Sound(d) && ProperRun(d, events) && Holds(d.rows, id, raw) && Remove(id) !in events
    requires !SomeoneElseLands(d, events, id, raw)
    requires RefreshedBetweenRotations(Ticks(d, events, id), refreshed)
    requires ResolvesTo(d, raw, id) && (refreshed ==> StandingOf(d.hasher, d.rows[id].hash) != Aging)
    ensures ResolvesTo(Run(d, events), probe, id) <==> probe == raw
  {
    hide Sound, ProperRun, SomeoneElseLands, Ticks, RefreshedBetweenRotations;
    ResolvesIffStanding(d, id, raw, raw);
    KeyResolvesIff(d, events, id, raw, probe);
    RefreshedKeyIsKept(StandingOf(d.hasher, d.rows[id].hash), Ticks(d, events, id), refreshed);
  }

  function Rotations(ticks: seq<Tick>): nat {
    if ticks == [] then 0 else (if ticks[0].Turn? then 1 else 0) + Rotations(ticks[1..])
  }

  /** Without a rehash of the row, two rotations lose a digest under the active pepper, one loses a
      digest under the previous pepper, and nothing loses a digest without pepper. */
  lemma {:induction false} UnrefreshedKeyIsLostIff(s: Standing, ticks: seq<Tick>)
    requires forall k :: 0 <= k < |ticks| ==> !ticks[k].Renewed?
    ensures AgedBy(s, ticks) == Lost <==>
            || s == Lost
            || (s == Aging && Rotations(ticks) >= 1)
            || (s == Current && Rotations(ticks) >= 2)
    decreases |ticks|
  {
    if ticks != [] {
      UnrefreshedKeyIsLostIff(Aged(s, ticks[0]), ticks[1..]);
    }
  }

  // ---------- the store ----------

  datatype RowError = RowExists | RowMissing | QueryFailed

  class PostgresKeyStore {
    const hasher: Hasher
    var rows: Table
    ghost var inFlight: map<Reader, Pending>
    ghost var born: map<string, nat>
    ghost var issued: map<RawKey, Owner>

    ghost predicate Valid()
      reads this
    {
      Sound(Deployed()) && forall id :: id in rows ==> rows[id].id == id
    }

    ghost function Deployed(): Deployment
      reads this
    {
      Deployment(rows, hasher, inFlight, born, issued)
    }

    constructor (rows: Table, hasher: Hasher, ghost inFlight: map<Reader, Pending>, ghost born: map<string, nat>,
                 ghost issued: map<RawKey, Owner>)
      requires Sound(Deployment(rows, hasher, inFlight, born, issued))
      requires forall id :: id in rows ==> rows[id].id == id
      ensures Valid() && Deployed() == Deployment(rows, hasher, inFlight, born, issued)
    {
      this.rows, this.hasher, this.inFlight, this.born, this.issued := rows, hasher, inFlight, born, issued;
    }

    /** Any row whose digest is among the candidates; an unanswered query finds nothing. */
    method SelectByDigest(raw: RawKey, answered: bool) returns (e: Option<KeyEntry>)
      requires Valid()
      ensures e.None? <==> !answered || Unknown(Deployed(), raw)
      ensures e.Some? ==> ResolvesTo(Deployed(), raw, e.value.id) && e == Some(rows[e.value.id])
    {
      var ids := set id | id in rows && Probed(hasher, raw, rows[id].hash);
      assert forall id :: id in ids <==> ResolvesTo(Deployed(), raw, id);
      if !answered || ids == {} {
        e := None;
      } else {
        var id :| id in ids;
        e := Some(rows[id]);
      }
    }

    /** The first statement: only an accepted row whose digest is not the active one goes on to the second. */
    method Begin(ghost who: Reader, raw: RawKey, now: Instant, answered: bool)
      returns (e: Option<KeyEntry>, reason: RejectReason)
      requires Valid() && who !in inFlight
      modifies this
      ensures Valid()
      ensures e.None? <==> !answered || Unknown(old(Deployed()), raw)
      ensures e.None? ==> reason == RejectNotFound && Deployed() == old(Deployed())
      ensures e.Some? ==>
                && ResolvesTo(old(Deployed()), raw, e.value.id)
                && e.value == old(rows)[e.value.id]
                && reason == Classify(e, now)
                && Deployed() == Step(old(Deployed()), Read(who, e.value.id, raw, now))
                && (who in inFlight <==> reason == RejectNone && Outdated(e.value, hasher, raw))
    {
      hide Sound, Outdated;
      e := SelectByDigest(raw, answered);
      if e.None? {
        return None, RejectNotFound;
      }
      reason := Classify(e, now);
      ghost var next := Step(Deployed(), Read(who, e.value.id, raw, now));
      StepKeepsSound(Deployed(), Read(who, e.value.id, raw, now));
      inFlight := next.inFlight;
    }

    /** The second statement, whenever it comes. The entry handed out shows the active digest even when
        the row could not be written. */
    method MaybeRehash(ghost who: Reader, raw: RawKey, e: KeyEntry, saved: bool) returns (shown: KeyEntry)
      requires Valid()
      requires who in inFlight <==> Outdated(e, hasher, raw)
      requires who in inFlight ==> (inFlight[who].id, inFlight[who].raw, inFlight[who].hasher) == (e.id, raw, hasher)
      modifies this
      ensures Valid()
      ensures shown == Rehashed(e, hasher, raw)
      ensures Deployed() == Step(old(Deployed()), Rehash(who, saved)) && who !in inFlight
    {
      hide Sound;
      StepKeepsSound(Deployed(), Rehash(who, saved));
      var active := HashForStore(hasher, raw);
      if e.hash == active.hash && e.version == active.version {
        return e;
      }
      inFlight := inFlight - {who};
      if saved && e.id in rows && !HashTaken(rows, e.id, active.hash) {
        rows := rows[e.id := rows[e.id].(hash := active.hash, version := active.version)];
      }
      shown := e.(hash := active.hash, version := active.version);
    }

    /** A lookup with no other call between its statements. */
    method Lookup(ghost who: Reader, raw: RawKey, now: Instant, answered: bool, saved: bool)
      returns (e: Option<KeyEntry>, reason: RejectReason)
      requires Valid() && who !in inFlight
      modifies this
      ensures Valid()
      ensures e.None? <==> !answered || Unknown(old(Deployed()), raw)
      ensures e.None? ==> reason == RejectNotFound && Deployed() == old(Deployed())
      ensures e.Some? ==>
                && ResolvesTo(old(Deployed()), raw, e.value.id)
                && reason == Classify(Some(old(rows)[e.value.id]), now)
                && e.value == (if reason == RejectNone then Rehashed(old(rows)[e.value.id], hasher, raw)
                               else old(rows)[e.value.id])
                && Deployed() == Step(Step(old(Deployed()), Read(who, e.value.id, raw, now)), Rehash(who, saved))
    {
      hide Sound, Outdated, HashForStore, Classify;
      e, reason := Begin(who, raw, now, answered);
      if e.Some? && reason == RejectNone {
        var shown := MaybeRehash(who, raw, e.value, saved);
        e := Some(shown);
      }
    }

    /** A request is let in exactly when the lookup accepts it: the second check never refuses. */
    method Authenticate(ghost who: Reader, token: RawKey, now: Instant, answered: bool, saved: bool)
      returns (r: Result<Claims, AuthError>)
      requires Valid() && who !in inFlight
      modifies this
      ensures Valid()
      ensures r.Ok? <==> answered && exists id :: ResolvesTo(old(Deployed()), token, id) && old(rows)[id].enabled
                                                  && (old(rows)[id].expiresAt == 0 || now < old(rows)[id].expiresAt)
      ensures r == Err(KeyRevoked) <==>
                answered && exists id :: ResolvesTo(old(Deployed()), token, id) && !old(rows)[id].enabled
      ensures r == Err(KeyExpired) <==>
                answered && exists id :: ResolvesTo(old(Deployed()), token, id) && old(rows)[id].enabled
                                         && old(rows)[id].expiresAt != 0 && old(rows)[id].expiresAt <= now
      ensures r == Err(InvalidKey) <==> !answered || forall id :: !ResolvesTo(old(Deployed()), token, id)
      ensures r.Ok? ==>
                && ResolvesTo(old(Deployed()), token, r.value.clientID)
                && r.value.roles == old(rows)[r.value.clientID].roles
                && Deployed() == Step(Step(old(Deployed()), Read(who, r.value.clientID, token, now)), Rehash(who, saved))
      ensures r.Err? ==> rows == old(rows)
    {
      hide Sound, Probed, Outdated;
      ghost var before := Deployed();
      var e, reason := Lookup(who, token, now, answered, saved);
      StoredDigestIsProbed(hasher, token);
      r := Validate(hasher, token, e, reason);
      if e.Some? {
        forall id | ResolvesTo(before, token, id)
          ensures id == e.value.id
        {
          ResolvesToItsClient(before, token, e.value.id, id);
        }
      }
    }

    method Create(clientID: string, rawKey: RawKey, roles: seq<string>, now: Instant, expiresAt: Instant, answered: bool)
      returns (r: Option<RowError>)
      requires Valid() && rawKey !in issued
      modifies this
      ensures Valid()
      ensures r == if !answered then Some(QueryFailed) else if clientID in old(rows) then Some(RowExists) else None
      ensures Deployed() == if r.None? then Step(old(Deployed()), Insert(clientID, rawKey, roles, now, expiresAt))
                            else old(Deployed())
    {
      hide Sound;
      ghost var ev := Insert(clientID, rawKey, roles, now, expiresAt);
      ghost var next := Step(Deployed(), ev);
      StepKeepsSound(Deployed(), ev);
      var e := NewEntry(hasher, clientID, rawKey, roles, now, expiresAt);
      StoredRaw(hasher, rawKey);
      NeverTaken(Deployed(), clientID, e.hash);
      if !answered {
        return Some(QueryFailed);
      }
      if clientID in rows || HashTaken(rows, clientID, e.hash) {
        return Some(RowExists);
      }
      rows := rows[clientID := e];
      born, issued := next.born, next.issued;
      r := None;
    }

    /** When the row was changed but cannot be read back, the caller is told of a failure. */
    method Update(clientID: string, upd: KeyUpdate, answered: bool, readBack: bool) returns (r: Option<RowError>)
      requires Valid()
      modifies this
      ensures Valid()
      ensures var empty := upd == KeyUpdate(None, None, None);
              && Deployed() == (if answered then Step(old(Deployed()), Change(clientID, upd)) else old(Deployed()))
              && r == if !answered && !empty then Some(QueryFailed)
                      else if clientID !in rows && !empty then Some(RowMissing)
                      else if !readBack then Some(QueryFailed)
                      else if clientID !in rows then Some(RowMissing)
                      else None
    {
      hide Sound;
      StepKeepsSound(Deployed(), Change(clientID, upd));
      if upd != KeyUpdate(None, None, None) {
        if !answered {
          return Some(QueryFailed);
        }
        if clientID !in rows {
          return Some(RowMissing);
        }
        rows := rows[clientID := Updated(rows[clientID], upd)];
      } else if clientID in rows {
        assert rows == rows[clientID := Updated(rows[clientID], upd)];
      }
      r := if !readBack then Some(QueryFailed) else if clientID in rows then None else Some(RowMissing);
    }

    method Delete(clientID: string, answered: bool) returns (r: Option<RowError>)
      requires Valid()
      modifies this
      ensures Valid()
      ensures r == if !answered then Some(QueryFailed) else if clientID !in old(rows) then Some(RowMissing) else None
      ensures Deployed() == if answered then Step(old(Deployed()), Remove(clientID)) else old(Deployed())
    {
      hide Sound;
      StepKeepsSound(Deployed(), Remove(clientID));
      if !answered {
        return Some(QueryFailed);
      }
      if clientID !in rows {
        assert rows == rows - {clientID};
        return Some(RowMissing);
      }
      rows := rows - {clientID};
      r := None;
    }
  }
}
