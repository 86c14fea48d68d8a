/** internal/mcp/keys.go and internal/mcp/managed_keys.go: the file-backed store of API keys. The
    specification is over the sequence of entries and the file; the store keeps them in arrays that
    it replaces and never writes again, and in an index from digests to array slots. */
module KeyEntries {
  import opened Outcomes
  import opened KeyHashing

  type Entries = seq<KeyEntry>

  // ---------- normalizing entries of an old file ----------

  function KeyPrefixOf(raw: RawKey): string {
    if |raw| <= 8 then raw else raw[..8] + "..."
  }

  /** An entry with a raw key and no digest gets the plain digest, and forgets the raw key. */
  function Migrated(e: KeyEntry): KeyEntry {
    if e.hash != NoDigest || e.key == "" then e
    else e.(hash := Plain(e.key), prefix := if e.prefix == "" then KeyPrefixOf(e.key) else e.prefix, key := "")
  }

  function AllMigrated(es: Entries): (r: Entries)
    ensures |r| == |es|
  {
    seq(|es|, i requires 0 <= i < |es| => Migrated(es[i]))
  }

  /** A second pass finds nothing to do; a legacy key is still found, under any hasher, while its text is gone
      but for eight characters; every other entry stays as it was. */
  lemma MigrationSettles(es: Entries, h: Hasher)
    ensures AllMigrated(AllMigrated(es)) == AllMigrated(es)
    ensures forall i :: 0 <= i < |es| && es[i].hash == NoDigest && es[i].key != "" ==>
              var e, after := es[i], AllMigrated(es)[i];
              && after.key == "" && Probed(h, e.key, after.hash)
              && (after.id, after.version, after.enabled) == (e.id, e.version, e.enabled)
              && (after.createdAt, after.roles, after.expiresAt) == (e.createdAt, e.roles, e.expiresAt)
              && after.prefix == (if e.prefix != "" then e.prefix
                                  else if |e.key| <= 8 then e.key else e.key[..8] + "...")
    ensures forall i :: 0 <= i < |es| && (es[i].hash != NoDigest || es[i].key == "") ==> AllMigrated(es)[i] == es[i]
  {
  }

  ghost predicate Normal(es: Entries) {
    forall i :: 0 <= i < |es| ==> Migrated(es[i]) == es[i]
  }

  // ---------- looking up ----------

  ghost predicate UniqueIDs(es: Entries) {
    forall i, j :: 0 <= i < j < |es| ==> es[i].id != es[j].id
  }

  ghost predicate UniqueDigests(es: Entries) {
    forall i, j :: 0 <= i < j < |es| && es[i].hash != NoDigest ==> es[i].hash != es[j].hash
  }

  /** The first entry with a digest, scanning from the front. */
  function ScanDigest(es: Entries, hash: Digest): (r: Option<nat>)
    ensures r.Some? ==> r.value < |es| && es[r.value].hash == hash
    ensures r.None? ==> forall i :: 0 <= i < |es| ==> es[i].hash != hash
  {
    if es == [] then None
    else if es[0].hash == hash then Some(0)
    else
      match ScanDigest(es[1..], hash)
      case None => None
      case Some(i) => assert es[1..][i] == es[i + 1]; Some(i + 1)
  }

  /** The entry a raw key opens: the candidates are tried in order. */
  function FindKey(es: Entries, cands: seq<HashCandidate>): Option<nat> {
    if cands == [] then None
    else if ScanDigest(es, cands[0].hash).Some? then ScanDigest(es, cands[0].hash)
    else FindKey(es, cands[1..])
  }

  lemma {:induction false} FindKeyFinds(es: Entries, cands: seq<HashCandidate>)
    ensures var r := FindKey(es, cands);
            && (r.Some? ==> r.value < |es| && exists c :: c in cands && c.hash == es[r.value].hash)
            && (r.None? ==> forall c, i :: c in cands && 0 <= i < |es| ==> es[i].hash != c.hash)
  {
    if cands != [] {
      FindKeyFinds(es, cands[1..]);
      if FindKey(es, cands).Some? && ScanDigest(es, cands[0].hash).None? {
        var c :| c in cands[1..] && c.hash == es[FindKey(es, cands).value].hash;
        assert c in cands;
      }
      if FindKey(es, cands).None? {
        forall c, i | c in cands && 0 <= i < |es|
          ensures es[i].hash != c.hash
        {
          assert c == cands[0] || c in cands[1..];
        }
      }
    }
  }

  function Opened(es: Entries, h: Hasher, raw: RawKey): Option<KeyEntry> {
    FindKeyFinds(es, Candidates(h, raw));
    match FindKey(es, Candidates(h, raw))
    case None => None
    case Some(i) => Some(es[i])
  }

  /** A raw key opens exactly an entry that holds one of its digests. */
  lemma OpenedIff(es: Entries, h: Hasher, raw: RawKey)
    ensures Opened(es, h, raw).Some? <==> exists i :: 0 <= i < |es| && Probed(h, raw, es[i].hash)
    ensures Opened(es, h, raw).Some? ==>
              Opened(es, h, raw).value in es && Probed(h, raw, Opened(es, h, raw).value.hash)
  {
    var cands := Candidates(h, raw);
    FindKeyFinds(es, cands);
    forall i | 0 <= i < |es| {
      CandidatesAreProbed(h, raw, es[i].hash);
    }
  }

  /** Two entries opened by one raw key under one hasher are one entry, when only one holds its digests. */
  ghost predicate AtMostOne(es: Entries, h: Hasher, raw: RawKey) {
    forall i, j :: 0 <= i < |es| && 0 <= j < |es| && Probed(h, raw, es[i].hash) && Probed(h, raw, es[j].hash) ==> i == j
  }

  // ---------- changing the store ----------

  function IndexOfID(es: Entries, id: string): (r: Option<nat>)
    ensures r.Some? ==> r.value < |es| && es[r.value].id == id && forall i :: 0 <= i < r.value ==> es[i].id != id
    ensures r.None? ==> forall i :: 0 <= i < |es| ==> es[i].id != id
  {
    if es == [] then None
    else if es[0].id == id then Some(0)
    else
      match IndexOfID(es[1..], id)
      case None => None
      case Some(i) => assert forall k :: 0 < k < |es| ==> es[1..][k - 1] == es[k]; Some(i + 1)
  }

  datatype KeyError = ClientExists | ClientMissing | PersistFailed

  datatype KeyUpdate = KeyUpdate(enabled: Option<bool>, roles: Option<seq<string>>, expiresAt: Option<Instant>)

  function Updated(e: KeyEntry, upd: KeyUpdate): KeyEntry {
    e.(enabled := if upd.enabled.Some? then upd.enabled.value else e.enabled,
       roles := if upd.roles.Some? then upd.roles.value else e.roles,
       expiresAt := if upd.expiresAt.Some? then upd.expiresAt.value else e.expiresAt)
  }

  function NewEntry(h: Hasher, id: string, raw: RawKey, roles: seq<string>, createdAt: Instant,
                    expiresAt: Instant): KeyEntry
  {
    var c := HashForStore(h, raw);
    KeyEntry(id, "", c.hash, c.version, KeyPrefixOf(raw), true, createdAt, roles, expiresAt)
  }

  datatype KeyOp =
    | Create(id: string, raw: RawKey, roles: seq<string>, createdAt: Instant, expiresAt: Instant)
    | Update(id: string, upd: KeyUpdate)
    | Delete(id: string)

  function Apply(es: Entries, h: Hasher, op: KeyOp): Result<Entries, KeyError> {
    var i := IndexOfID(es, op.id);
    match op
    case Create(id, raw, roles, createdAt, expiresAt) =>
      if i.Some? then Err(ClientExists) else Ok(es + [NewEntry(h, id, raw, roles, createdAt, expiresAt)])
    case Update(_, upd) =>
      if i.None? then Err(ClientMissing) else Ok(es[i.value := Updated(es[i.value], upd)])
    case Delete(_) =>
      if i.None? then Err(ClientMissing) else Ok(es[..i.value] + es[i.value + 1..])
  }

  /** What the server holds and what the file holds. */
  datatype Stored = Stored(entries: Entries, disk: Entries)

  /** An operation reaches memory only after it has reached the file. */
  function StoreStep(s: Stored, h: Hasher, op: KeyOp, saves: bool): Stored {
    var next := Apply(s.entries, h, op);
    if next.Ok? && saves then Stored(next.value, next.value) else s
  }

  function Failure(es: Entries, h: Hasher, op: KeyOp, saves: bool): Option<KeyError> {
    match Apply(es, h, op)
    case Err(e) => Some(e)
    case Ok(_) => if saves then None else Some(PersistFailed)
  }

  /** Why an operation fails: the client is there already, or is not there; else only when the save fails. */
  lemma FailsBecause(s: Stored, h: Hasher, op: KeyOp, saves: bool)
    ensures var known := exists i :: 0 <= i < |s.entries| && s.entries[i].id == op.id;
            var clash := if op.Create? then Some(ClientExists) else Some(ClientMissing);
            && (Failure(s.entries, h, op, saves) == clash <==> (op.Create? <==> known))
            && (Failure(s.entries, h, op, saves) == Some(PersistFailed) <==> (op.Create? <==> !known) && !saves)
            && Failure(s.entries, h, op, saves) in {None, clash, Some(PersistFailed)}
            && (Failure(s.entries, h, op, saves).Some? ==> StoreStep(s, h, op, saves) == s)
  {
  }

  function StoreRun(s: Stored, h: Hasher, ops: seq<(KeyOp, bool)>): Stored
    decreases |ops|
  {
    if ops == [] then s else StoreRun(StoreStep(s, h, ops[0].0, ops[0].1), h, ops[1..])
  }

  /** Generated keys do not repeat: no digest of a new key is in the store yet. */
  ghost predicate FreshKeys(s: Stored, h: Hasher, ops: seq<(KeyOp, bool)>)
    decreases |ops|
  {
    ops != [] ==>
      && (ops[0].0.Create? ==> Opened(s.entries, h, ops[0].0.raw).None?)
      && FreshKeys(StoreStep(s, h, ops[0].0, ops[0].1), h, ops[1..])
  }

  ghost predicate Consistent(es: Entries) {
    UniqueIDs(es) && UniqueDigests(es) && Normal(es)
  }

  lemma ApplyKeepsConsistent(es: Entries, h: Hasher, op: KeyOp)
    requires Consistent(es) && (op.Create? ==> Opened(es, h, op.raw).None?)
    ensures Apply(es, h, op).Ok? ==> Consistent(Apply(es, h, op).value)
  {
    hide Opened, Probed, Candidates, HashForStore, Migrated;
    if Apply(es, h, op).Ok? {
      var es' := Apply(es, h, op).value;
      match op
      case Create(id, raw, roles, createdAt, expiresAt) =>
        NewDigestIsUnused(es, h, raw);
        NewEntryIsNormal(h, id, raw, roles, createdAt, expiresAt);
      case Update(id, upd) =>
        UpdateIsNormal(es[IndexOfID(es, id).value], upd);
      case Delete(id) =>
        var i := IndexOfID(es, id).value;
        assert forall k :: 0 <= k < |es'| ==> es'[k] == es[if k < i then k else k + 1];
    }
  }

  lemma NewDigestIsUnused(es: Entries, h: Hasher, raw: RawKey)
    requires Opened(es, h, raw).None?
    ensures HashForStore(h, raw).hash != NoDigest
    ensures forall i :: 0 <= i < |es| ==> es[i].hash != HashForStore(h, raw).hash
  {
    StoredDigestIsProbed(h, raw);
    OpenedIff(es, h, raw);
  }

  lemma NewEntryIsNormal(h: Hasher, id: string, raw: RawKey, roles: seq<string>, createdAt: Instant, expiresAt: Instant)
    ensures var e := NewEntry(h, id, raw, roles, createdAt, expiresAt); Migrated(e) == e
  {
  }

  lemma UpdateIsNormal(e: KeyEntry, upd: KeyUpdate)
    requires Migrated(e) == e
    ensures Migrated(Updated(e, upd)) == Updated(e, upd)
  {
  }

  /** Every run keeps IDs and digests unique, and never lets memory and file part. */
  lemma {:induction false} RunKeepsConsistent(s: Stored, h: Hasher, ops: seq<(KeyOp, bool)>)
    requires Consistent(s.entries) && FreshKeys(s, h, ops)
    ensures Consistent(StoreRun(s, h, ops).entries)
    ensures s.disk == s.entries ==> StoreRun(s, h, ops).disk == StoreRun(s, h, ops).entries
    decreases |ops|
  {
    if ops != [] {
      ApplyKeepsConsistent(s.entries, h, ops[0].0);
      RunKeepsConsistent(StoreStep(s, h, ops[0].0, ops[0].1), h, ops[1..]);
    }
  }

  /** A key that was just issued opens its own entry, which is enabled, shows what was asked for, holds the
      digest of the active pepper, and of the key itself keeps eight characters at most. */
  lemma CreatedKeyOpens(es: Entries, h: Hasher, op: KeyOp)
    requires op.Create? && Opened(es, h, op.raw).None? && Apply(es, h, op).Ok?
    ensures Opened(Apply(es, h, op).value, h, op.raw).Some?
    ensures var e := Opened(Apply(es, h, op).value, h, op.raw).value;
            && e.id == op.id && e.enabled && e.roles == op.roles
            && e.createdAt == op.createdAt && e.expiresAt == op.expiresAt
            && (h.active.None? ==> e.hash == Plain(op.raw) && e.version == 0)
            && (h.active.Some? ==> e.hash == Keyed(h.active.value, op.raw) && e.version == 1)
            && e.key == "" && e.prefix == (if |op.raw| <= 8 then op.raw else op.raw[..8] + "...")
    ensures AtMostOne(Apply(es, h, op).value, h, op.raw)
  {
    CreatedEntryOpens(es, h, op);
  }

  lemma CreatedEntryOpens(es: Entries, h: Hasher, op: KeyOp)
    requires op.Create? && Opened(es, h, op.raw).None? && Apply(es, h, op).Ok?
    ensures Opened(Apply(es, h, op).value, h, op.raw)
         == Some(NewEntry(h, op.id, op.raw, op.roles, op.createdAt, op.expiresAt))
    ensures AtMostOne(Apply(es, h, op).value, h, op.raw)
  {
    var es' := Apply(es, h, op).value;
    StoredDigestIsProbed(h, op.raw);
    OpenedIff(es, h, op.raw);
    assert Probed(h, op.raw, es'[|es|].hash);
    OpenedIff(es', h, op.raw);
  }

  /** An entry that alone holds a digest of raw is the one raw opens. */
  lemma OnlyMatchOpens(es: Entries, h: Hasher, raw: RawKey, k: nat)
    requires k < |es| && Probed(h, raw, es[k].hash)
    requires forall j :: 0 <= j < |es| && Probed(h, raw, es[j].hash) ==> es[j] == es[k]
    ensures Opened(es, h, raw) == Some(es[k])
  {
    hide Opened, Probed;
    OpenedIff(es, h, raw);
  }

  /** No operation on one client reaches what the key of another client opens. */
  lemma OthersStayOpen(es: Entries, h: Hasher, op: KeyOp, raw: RawKey)
    requires AtMostOne(es, h, raw) && Opened(es, h, raw).Some? && Opened(es, h, raw).value.id != op.id
    requires op.Create? ==> op.raw != raw
    ensures Apply(es, h, op).Ok? ==> Opened(Apply(es, h, op).value, h, raw) == Opened(es, h, raw)
  {
    hide Opened, Candidates;
    if Apply(es, h, op).Ok? {
      var es' := Apply(es, h, op).value;
      OpenedIff(es, h, raw);
      var k :| 0 <= k < |es| && es[k] == Opened(es, h, raw).value;
      match op
      case Create(_, _, _, _, _) => OnlyMatchOpens(es', h, raw, k);
      case Update(id, _) => OnlyMatchOpens(es', h, raw, k);
      case Delete(id) =>
        var i := IndexOfID(es, id).value;
        hide Probed;
        assert forall j :: 0 <= j < |es'| ==> es'[j] == es[if j < i then j else j + 1];
        OnlyMatchOpens(es', h, raw, if i < k then k - 1 else k);
    }
  }

  /** The key of a deleted client opens nothing. */
  lemma DeletedKeyIsDead(es: Entries, h: Hasher, op: KeyOp, raw: RawKey)
    requires op.Delete? && UniqueIDs(es) && AtMostOne(es, h, raw)
    requires Opened(es, h, raw).Some? && Opened(es, h, raw).value.id == op.id
    ensures Apply(es, h, op).Ok? && Opened(Apply(es, h, op).value, h, raw).None?
  {
    OpenedIff(es, h, raw);
    var e := Opened(es, h, raw).value;
    var k :| 0 <= k < |es| && es[k] == e;
    var i := IndexOfID(es, op.id);
    assert i == Some(k);
    var es' := Apply(es, h, op).value;
    forall j | 0 <= j < |es'|
      ensures !Probed(h, raw, es'[j].hash)
    {
      assert es'[j] == es[if j < k then j else j + 1];
    }
    OpenedIff(es', h, raw);
  }

  /** A key nobody issues again opens nothing once it opens nothing. */
  lemma DeadStaysDead(es: Entries, h: Hasher, op: KeyOp, raw: RawKey)
    requires Opened(es, h, raw).None? && (op.Create? ==> op.raw != raw) && Apply(es, h, op).Ok?
    ensures Opened(Apply(es, h, op).value, h, raw).None?
  {
    hide Opened, Candidates, HashForStore;
    var es' := Apply(es, h, op).value;
    OpenedIff(es, h, raw);
    if op.Create? {
      OnlyItsOwnKey(h, op.raw, raw);
    }
    forall j | 0 <= j < |es'|
      ensures !Probed(h, raw, es'[j].hash)
    {
      hide Probed;
      if op.Delete? {
        var i := IndexOfID(es, op.id).value;
        assert es'[j] == es[if j < i then j else j + 1];
      }
    }
    OpenedIff(es', h, raw);
  }

  lemma OnlyItsOwnKey(h: Hasher, issued: RawKey, raw: RawKey)
    requires issued != raw
    ensures !Probed(h, raw, HashForStore(h, issued).hash)
  {
  }

  lemma ApplyKeepsSingle(es: Entries, h: Hasher, op: KeyOp, raw: RawKey)
    requires AtMostOne(es, h, raw) && (op.Create? ==> op.raw != raw) && Apply(es, h, op).Ok?
    ensures AtMostOne(Apply(es, h, op).value, h, raw)
  {
    hide Candidates, HashForStore, Probed;
    var es' := Apply(es, h, op).value;
    if op.Create? {
      OnlyItsOwnKey(h, op.raw, raw);
    } else if op.Delete? {
      var i := IndexOfID(es, op.id).value;
      assert forall j :: 0 <= j < |es'| ==> es'[j] == es[if j < i then j else j + 1];
    }
  }

  lemma UpdatedKeyStaysOpen(es: Entries, h: Hasher, op: KeyOp, raw: RawKey)
    requires op.Update? && UniqueIDs(es) && AtMostOne(es, h, raw)
    requires Opened(es, h, raw).Some? && Opened(es, h, raw).value.id == op.id
    ensures Apply(es, h, op).Ok?
    ensures Opened(Apply(es, h, op).value, h, raw) == Some(Updated(Opened(es, h, raw).value, op.upd))
  {
    hide Opened, Candidates, Probed;
    OpenedIff(es, h, raw);
    var k :| 0 <= k < |es| && es[k] == Opened(es, h, raw).value;
    assert IndexOfID(es, op.id) == Some(k);
    OnlyMatchOpens(Apply(es, h, op).value, h, raw, k);
  }

  /** After an update of its client a key opens an entry with the values given, and otherwise as before. */
  lemma UpdateSetsFields(es: Entries, h: Hasher, op: KeyOp, raw: RawKey)
    requires op.Update? && UniqueIDs(es) && AtMostOne(es, h, raw)
    requires Opened(es, h, raw).Some? && Opened(es, h, raw).value.id == op.id
    ensures Apply(es, h, op).Ok? && Opened(Apply(es, h, op).value, h, raw).Some?
    ensures var e, after := Opened(es, h, raw).value, Opened(Apply(es, h, op).value, h, raw).value;
            && after.enabled == (if op.upd.enabled.Some? then op.upd.enabled.value else e.enabled)
            && after.roles == (if op.upd.roles.Some? then op.upd.roles.value else e.roles)
            && after.expiresAt == (if op.upd.expiresAt.Some? then op.upd.expiresAt.value else e.expiresAt)
            && (after.id, after.key, after.hash, after.version) == (e.id, e.key, e.hash, e.version)
            && (after.prefix, after.createdAt) == (e.prefix, e.createdAt)
  {
    hide Apply, Opened, AtMostOne, UniqueIDs;
    UpdatedKeyStaysOpen(es, h, op, raw);
  }

  /** Whether some deletion of the client went through. */
  ghost predicate Deleted(ops: seq<(KeyOp, bool)>, id: string) {
    (KeyOp.Delete(id), true) in ops
  }

  ghost predicate NeverIssued(ops: seq<(KeyOp, bool)>, raw: RawKey) {
    forall k :: 0 <= k < |ops| && ops[k].0.Create? ==> ops[k].0.raw != raw
  }

  /** Through every run, a raw key opens its client's entry until that client is deleted, and nothing
      afterwards. */
  lemma {:induction false} KeyFollowsItsClient(s: Stored, h: Hasher, ops: seq<(KeyOp, bool)>, raw: RawKey, id: string)
    requires Consistent(s.entries) && FreshKeys(s, h, ops) && NeverIssued(ops, raw) && AtMostOne(s.entries, h, raw)
    requires Opened(s.entries, h, raw).Some? && Opened(s.entries, h, raw).value.id == id
    ensures Deleted(ops, id) ==> Opened(StoreRun(s, h, ops).entries, h, raw).None?
    ensures !Deleted(ops, id) ==>
              && Opened(StoreRun(s, h, ops).entries, h, raw).Some?
              && Opened(StoreRun(s, h, ops).entries, h, raw).value.id == id
    decreases |ops|
  {
    hide Opened, Candidates, HashForStore, Probed, Consistent, AtMostOne, Apply;
    if ops != [] {
      var op, saves := ops[0].0, ops[0].1;
      StepKeepsKey(s, h, op, saves, raw, id);
      DeletedSplits(ops, id);
      var next := StoreStep(s, h, op, saves);
      if op == KeyOp.Delete(id) && saves {
        DeadForever(next, h, ops[1..], raw);
      } else {
        KeyFollowsItsClient(next, h, ops[1..], raw, id);
      }
    }
  }

  /** The life of a key, from the run that begins with its creation: it opens its client's entry until
      that client is deleted, and nothing afterwards. */
  lemma IssuedKeyLives(s: Stored, h: Hasher, create: KeyOp, ops: seq<(KeyOp, bool)>)
    requires create.Create? && Apply(s.entries, h, create).Ok?
    requires Consistent(s.entries) && FreshKeys(s, h, [(create, true)] + ops) && NeverIssued(ops, create.raw)
    ensures var after := Opened(StoreRun(s, h, [(create, true)] + ops).entries, h, create.raw);
            if Deleted(ops, create.id) then after.None? else after.Some? && after.value.id == create.id
  {
    hide Opened, Consistent, AtMostOne, Apply;
    var run := [(create, true)] + ops;
    assert run[0] == (create, true) && run[1..] == ops;
    ApplyKeepsConsistent(s.entries, h, create);
    CreatedKeyOpens(s.entries, h, create);
    KeyFollowsItsClient(StoreStep(s, h, create, true), h, ops, create.raw, create.id);
  }

  // ---------- what the entry of a key shows ----------

  /** An update of the client that was saved. */
  predicate Updates(op: (KeyOp, bool), id: string) {
    op.1 && op.0.Update? && op.0.id == id
  }

  /** The last value a saved update of the client gave, if one did. */
  function EnabledAfter(ops: seq<(KeyOp, bool)>, id: string, was: bool): bool
    decreases |ops|
  {
    if ops == [] then was
    else EnabledAfter(ops[1..], id, if Updates(ops[0], id) && ops[0].0.upd.enabled.Some? then ops[0].0.upd.enabled.value else was)
  }

  function RolesAfter(ops: seq<(KeyOp, bool)>, id: string, was: seq<string>): seq<string>
    decreases |ops|
  {
    if ops == [] then was
    else RolesAfter(ops[1..], id, if Updates(ops[0], id) && ops[0].0.upd.roles.Some? then ops[0].0.upd.roles.value else was)
  }

  function ExpiryAfter(ops: seq<(KeyOp, bool)>, id: string, was: Instant): Instant
    decreases |ops|
  {
    if ops == [] then was
    else
      ExpiryAfter(ops[1..], id, if Updates(ops[0], id) && ops[0].0.upd.expiresAt.Some? then ops[0].0.upd.expiresAt.value else was)
  }

  function Shown(e: KeyEntry, ops: seq<(KeyOp, bool)>, id: string): KeyEntry {
    e.(enabled := EnabledAfter(ops, id, e.enabled), roles := RolesAfter(ops, id, e.roles),
       expiresAt := ExpiryAfter(ops, id, e.expiresAt))
  }

  function AfterOne(e: KeyEntry, op: (KeyOp, bool), id: string): KeyEntry {
    if Updates(op, id) then Updated(e, op.0.upd) else e
  }

  lemma StepShows(s: Stored, h: Hasher, op: KeyOp, saves: bool, raw: RawKey, id: string)
    requires Consistent(s.entries) && AtMostOne(s.entries, h, raw)
    requires op.Create? ==> op.raw != raw
    requires Opened(s.entries, h, raw).Some? && Opened(s.entries, h, raw).value.id == id
    requires (op, saves) != (KeyOp.Delete(id), true)
    ensures Opened(StoreStep(s, h, op, saves).entries, h, raw)
         == Some(AfterOne(Opened(s.entries, h, raw).value, (op, saves), id))
  {
    hide Opened, Candidates, HashForStore, Probed, AtMostOne, UniqueDigests, Normal;
    var es := s.entries;
    if op.id != id {
      OthersStayOpen(es, h, op, raw);
    } else if op.Update? {
      UpdatedKeyStaysOpen(es, h, op, raw);
    } else if op.Create? {
      OpenedIff(es, h, raw);
    }
  }

  lemma ShownSplits(e: KeyEntry, ops: seq<(KeyOp, bool)>, id: string)
    requires ops != []
    ensures Shown(e, ops, id) == Shown(AfterOne(e, ops[0], id), ops[1..], id)
  {
  }

  lemma {:induction false} RunShows(s: Stored, h: Hasher, ops: seq<(KeyOp, bool)>, raw: RawKey, id: string)
    requires Consistent(s.entries) && FreshKeys(s, h, ops) && NeverIssued(ops, raw) && AtMostOne(s.entries, h, raw)
    requires Opened(s.entries, h, raw).Some? && Opened(s.entries, h, raw).value.id == id && !Deleted(ops, id)
    ensures Opened(StoreRun(s, h, ops).entries, h, raw) == Some(Shown(Opened(s.entries, h, raw).value, ops, id))
    decreases |ops|
  {
    hide Opened, Candidates, HashForStore, Probed, Consistent, AtMostOne, Apply;
    if ops != [] {
      var op, saves := ops[0].0, ops[0].1;
      DeletedSplits(ops, id);
      StepKeepsKey(s, h, op, saves, raw, id);
      StepShows(s, h, op, saves, raw, id);
      ShownSplits(Opened(s.entries, h, raw).value, ops, id);
      hide Shown;
      RunShows(StoreStep(s, h, op, saves), h, ops[1..], raw, id);
    }
  }

  /** Through every run without its deletion, a client's key opens an entry with the values its saved updates
      gave last, and otherwise as at the start. */
  lemma KeyShowsLastUpdates(s: Stored, h: Hasher, ops: seq<(KeyOp, bool)>, raw: RawKey, id: string)
    requires Consistent(s.entries) && FreshKeys(s, h, ops) && NeverIssued(ops, raw) && AtMostOne(s.entries, h, raw)
    requires Opened(s.entries, h, raw).Some? && Opened(s.entries, h, raw).value.id == id && !Deleted(ops, id)
    ensures Opened(StoreRun(s, h, ops).entries, h, raw).Some?
    ensures var e, after := Opened(s.entries, h, raw).value, Opened(StoreRun(s, h, ops).entries, h, raw).value;
            && after.enabled == EnabledAfter(ops, id, e.enabled)
            && after.roles == RolesAfter(ops, id, e.roles)
            && after.expiresAt == ExpiryAfter(ops, id, e.expiresAt)
            && (after.id, after.key, after.hash, after.version) == (e.id, e.key, e.hash, e.version)
            && (after.prefix, after.createdAt) == (e.prefix, e.createdAt)
  {
    hide Opened, Consistent, AtMostOne, StoreRun;
    RunShows(s, h, ops, raw, id);
  }

  lemma {:induction false} StaysDisabled(ops: seq<(KeyOp, bool)>, id: string)
    requires forall k :: 0 <= k < |ops| && ops[k].1 && ops[k].0.Update? && ops[k].0.id == id ==>
               ops[k].0.upd.enabled != Some(true)
    ensures !EnabledAfter(ops, id, false)
    decreases |ops|
  {
    if ops != [] {
      StaysDisabled(ops[1..], id);
    }
  }

  /** A key whose client a saved update has disabled is refused as revoked, at all times, until a saved update
      enables the client again. */
  lemma DisabledKeyIsRevoked(s: Stored, h: Hasher, upd: KeyUpdate, ops: seq<(KeyOp, bool)>, raw: RawKey, id: string, now: Instant)
    requires Consistent(s.entries) && NeverIssued(ops, raw) && AtMostOne(s.entries, h, raw)
    requires FreshKeys(s, h, [(KeyOp.Update(id, upd), true)] + ops)
    requires Opened(s.entries, h, raw).Some? && Opened(s.entries, h, raw).value.id == id && !Deleted(ops, id)
    requires upd.enabled == Some(false)
    requires forall k :: 0 <= k < |ops| && ops[k].1 && ops[k].0.Update? && ops[k].0.id == id ==>
               ops[k].0.upd.enabled != Some(true)
    ensures Classify(Opened(StoreRun(s, h, [(KeyOp.Update(id, upd), true)] + ops).entries, h, raw), now) == RejectRevoked
  {
    hide Opened, Consistent, AtMostOne, Apply;
    var op := KeyOp.Update(id, upd);
    var run := [(op, true)] + ops;
    assert run[0] == (op, true) && run[1..] == ops;
    StepKeepsKey(s, h, op, true, raw, id);
    StepShows(s, h, op, true, raw, id);
    RunShows(StoreStep(s, h, op, true), h, ops, raw, id);
    StaysDisabled(ops, id);
  }

  lemma DeletedSplits(ops: seq<(KeyOp, bool)>, id: string)
    requires ops != []
    ensures Deleted(ops, id) <==> ops[0] == (KeyOp.Delete(id), true) || Deleted(ops[1..], id)
  {
    assert ops == [ops[0]] + ops[1..];
  }

  lemma StepKeepsKey(s: Stored, h: Hasher, op: KeyOp, saves: bool, raw: RawKey, id: string)
    requires Consistent(s.entries) && AtMostOne(s.entries, h, raw)
    requires op.Create? ==> op.raw != raw && Opened(s.entries, h, op.raw).None?
    requires Opened(s.entries, h, raw).Some? && Opened(s.entries, h, raw).value.id == id
    ensures var next := StoreStep(s, h, op, saves).entries;
            && Consistent(next) && AtMostOne(next, h, raw)
            && if op == KeyOp.Delete(id) && saves then Opened(next, h, raw).None?
               else Opened(next, h, raw).Some? && Opened(next, h, raw).value.id == id
  {
    hide Opened, Candidates, HashForStore, Probed, AtMostOne, UniqueDigests, Normal;
    var es := s.entries;
    ApplyKeepsConsistent(es, h, op);
    if Apply(es, h, op).Ok? {
      ApplyKeepsSingle(es, h, op, raw);
    }
    if op.id != id {
      OthersStayOpen(es, h, op, raw);
    } else if op.Update? {
      UpdatedKeyStaysOpen(es, h, op, raw);
    } else if op.Delete? {
      DeletedKeyIsDead(es, h, op, raw);
    } else {
      OpenedIff(es, h, raw);
    }
  }

  lemma {:induction false} DeadForever(s: Stored, h: Hasher, ops: seq<(KeyOp, bool)>, raw: RawKey)
    requires Opened(s.entries, h, raw).None? && NeverIssued(ops, raw)
    ensures Opened(StoreRun(s, h, ops).entries, h, raw).None?
    decreases |ops|
  {
    hide Opened, Candidates, HashForStore, Probed, Apply;
    if ops != [] {
      var op, saves := ops[0].0, ops[0].1;
      if Apply(s.entries, h, op).Ok? {
        DeadStaysDead(s.entries, h, op, raw);
      }
      DeadForever(StoreStep(s, h, op, saves), h, ops[1..], raw);
    }
  }
}

module ManagedKeys {
  import opened Outcomes
  import opened KeyHashing
  import opened KeyEntries

  /** A pointer to an entry: the array it lies in and its slot. */
  datatype EntryRef = EntryRef(slots: array<KeyEntry>, i: nat)

  /** The index points at the last entry with each digest. */
  ghost predicate IndexAgrees(byHash: map<Digest, nat>, es: Entries) {
    && NoDigest !in byHash
    && (forall h :: h in byHash ==>
          byHash[h] < |es| && es[byHash[h]].hash == h && forall j :: byHash[h] < j < |es| ==> es[j].hash != h)
    && forall i :: 0 <= i < |es| && es[i].hash != NoDigest ==> es[i].hash in byHash
  }

  /** On unique digests the index is the scan. */
  lemma IndexIsScan(byHash: map<Digest, nat>, es: Entries, hash: Digest)
    requires IndexAgrees(byHash, es) && UniqueDigests(es) && hash != NoDigest
    ensures ScanDigest(es, hash) == if hash in byHash then Some(byHash[hash]) else None
  {
  }

  function EnabledIn(es: Entries): nat {
    if es == [] then 0
    else EnabledIn(es[..|es| - 1]) + if es[|es| - 1].enabled && es[|es| - 1].hash != NoDigest then 1 else 0
  }

  function UsableIn(es: Entries, now: Instant): nat {
    if es == [] then 0
    else UsableIn(es[..|es| - 1], now) + if Classify(Some(es[|es| - 1]), now) == RejectNone then 1 else 0
  }

  /** Nothing is usable exactly when every entry would be rejected. */
  lemma {:induction false} UsableInZero(es: Entries, now: Instant)
    ensures UsableIn(es, now) <= |es|
    ensures UsableIn(es, now) == 0 <==> forall i :: 0 <= i < |es| ==> Classify(Some(es[i]), now) != RejectNone
  {
    if es != [] {
      UsableInZero(es[..|es| - 1], now);
      assert es == es[..|es| - 1] + [es[|es| - 1]];
    }
  }

  /** What is counted: the entries with a digest that are enabled, and those a lookup accepts now. */
  lemma CountsAreSizes(es: Entries, now: Instant)
    ensures EnabledIn(es) == |EnabledSlots(es)|
    ensures UsableIn(es, now) == |UsableSlots(es, now)|
  {
    EnabledIsSize(es);
    UsableIsSize(es, now);
  }

  lemma SlotsGrow(es: Entries, e: KeyEntry, now: Instant)
    ensures EnabledSlots(es + [e]) == EnabledSlots(es) + if e.enabled && e.hash != NoDigest then {|es|} else {}
    ensures UsableSlots(es + [e], now)
         == UsableSlots(es, now) + if e.enabled && (e.expiresAt == 0 || now < e.expiresAt) then {|es|} else {}
  {
  }

  lemma {:induction false} EnabledIsSize(es: Entries)
    ensures EnabledIn(es) == |EnabledSlots(es)|
  {
    if es == [] {
      assert EnabledSlots(es) == {};
    } else {
      var rest, last := es[..|es| - 1], es[|es| - 1];
      assert |rest| !in EnabledSlots(rest);
      hide EnabledSlots;
      EnabledIsSize(rest);
      SlotsGrow(rest, last, 0);
      assert es == rest + [last];
    }
  }

  lemma {:induction false} UsableIsSize(es: Entries, now: Instant)
    ensures UsableIn(es, now) == |UsableSlots(es, now)|
  {
    if es == [] {
      assert UsableSlots(es, now) == {};
    } else {
      var rest, last := es[..|es| - 1], es[|es| - 1];
      assert |rest| !in UsableSlots(rest, now);
      hide UsableSlots;
      UsableIsSize(rest, now);
      SlotsGrow(rest, last, now);
      assert es == rest + [last];
    }
  }

  function EnabledSlots(es: Entries): set<nat> {
    set i: nat | i < |es| && es[i].enabled && es[i].hash != NoDigest
  }

  function UsableSlots(es: Entries, now: Instant): set<nat> {
    set i: nat | i < |es| && es[i].enabled && (es[i].expiresAt == 0 || now < es[i].expiresAt)
  }

  lemma NothingIndexed(es: Entries)
    requires es == []
    ensures IndexAgrees(map[], es) && EnabledIn(es) == 0
  {
  }

  /** Indexing one more entry keeps the index and the count right. */
  lemma IndexGrows(byHash: map<Digest, nat>, es: Entries, n: nat)
    requires n < |es| && IndexAgrees(byHash, es[..n])
    ensures IndexAgrees(if es[n].hash == NoDigest then byHash else byHash[es[n].hash := n], es[..n + 1])
    ensures EnabledIn(es[..n + 1]) == EnabledIn(es[..n]) + if es[n].enabled && es[n].hash != NoDigest then 1 else 0
  {
    assert es[..n + 1][..n] == es[..n];
  }

  method MigrateLegacyEntries(entries: array<KeyEntry>) returns (count: nat)
    modifies entries
    ensures entries[..] == AllMigrated(old(entries[..]))
    ensures count == 0 <==> entries[..] == old(entries[..])
  {
    count := 0;
    for i := 0 to entries.Length
      invariant forall k :: 0 <= k < i ==> entries[k] == Migrated(old(entries[k]))
      invariant forall k :: i <= k < entries.Length ==> entries[k] == old(entries[k])
      invariant count == 0 <==> forall k :: 0 <= k < i ==> entries[k] == old(entries[k])
    {
      if entries[i].hash == NoDigest && entries[i].key != "" {
        var e := entries[i];
        e := e.(hash := Plain(e.key), prefix := if e.prefix == "" then KeyPrefixOf(e.key) else e.prefix);
        entries[i] := e.(key := "");
        count := count + 1;
      }
    }
    if count == 0 {
      assert forall k :: 0 <= k < entries.Length ==> entries[..][k] == old(entries[..])[k];
    }
  }

  class KeyStore {
    const slots: array<KeyEntry>
    const hasher: Hasher
    var byHash: map<Digest, nat>
    var enabledCount: nat

    ghost predicate Valid()
      reads this, slots
    {
      IndexAgrees(byHash, slots[..]) && enabledCount == EnabledIn(slots[..])
    }

    constructor (entries: array<KeyEntry>, hasher: Hasher)
      modifies entries
      ensures slots == entries && this.hasher == hasher && Valid()
      ensures entries[..] == AllMigrated(old(entries[..]))
    {
      hide IndexAgrees, AllMigrated, EnabledIn;
      slots, this.hasher, byHash, enabledCount := entries, hasher, map[], 0;
      new;
      var _ := MigrateLegacyEntries(entries);
      ghost var es := entries[..];
      NothingIndexed(es[..0]);
      for i := 0 to entries.Length
        invariant entries[..] == es
        invariant IndexAgrees(byHash, es[..i]) && enabledCount == EnabledIn(es[..i])
      {
        IndexGrows(byHash, es, i);
        if entries[i].hash != NoDigest {
          byHash := byHash[entries[i].hash := i];
          if entries[i].enabled {
            enabledCount := enabledCount + 1;
          }
        }
      }
      assert es[..entries.Length] == es;
    }

    method Lookup(raw: RawKey) returns (r: Option<EntryRef>)
      requires Valid() && UniqueDigests(slots[..])
      ensures r == match FindKey(slots[..], Candidates(hasher, raw))
                   case None => None
                   case Some(i) => Some(EntryRef(slots, i))
    {
      var cands := Candidates(hasher, raw);
      for k := 0 to |cands|
        invariant FindKey(slots[..], cands) == FindKey(slots[..], cands[k..])
      {
        CandidatesAreProbed(hasher, raw, NoDigest);
        assert cands[k..][0] == cands[k] && cands[k..][1..] == cands[k + 1..];
        IndexIsScan(byHash, slots[..], cands[k].hash);
        if cands[k].hash in byHash {
          return Some(EntryRef(slots, byHash[cands[k].hash]));
        }
      }
      r := None;
    }
  }

  method CopyEntries(src: array<KeyEntry>) returns (dst: array<KeyEntry>)
    ensures fresh(dst) && dst[..] == src[..]
  {
    dst := new KeyEntry[src.Length](i requires 0 <= i < src.Length reads src => src[i]);
  }

  class ManagedKeyStore {
    const hasher: Hasher
    var store: KeyStore
    var entries: array<KeyEntry>
    ghost var disk: Entries

    ghost predicate Valid()
      reads this, store, store.slots, entries
    {
      && store.Valid() && store.hasher == hasher
      && store.slots[..] == entries[..]
      && Consistent(entries[..])
    }

    ghost function Held(): Stored
      reads this, entries
    {
      Stored(entries[..], disk)
    }

    constructor FromEntries(src: array<KeyEntry>, hasher: Hasher, ghost disk: Entries)
      requires UniqueIDs(src[..]) && UniqueDigests(AllMigrated(src[..]))
      modifies src
      ensures Valid() && this.hasher == hasher && this.disk == disk
      ensures entries[..] == AllMigrated(old(src[..]))
    {
      hide IndexAgrees, EnabledIn;
      var s := new KeyStore(src, hasher);
      var copy := CopyEntries(src);
      store, entries, this.hasher, this.disk := s, copy, hasher, disk;
    }

    /** Writes the file through a temporary one that is renamed at the end, so that a failure leaves
        the file as it was. */
    method SaveKeysFile(updated: array<KeyEntry>, saves: bool)
      modifies this`disk
      ensures disk == if saves then updated[..] else old(disk)
    {
      if saves {
        disk := updated[..];
      }
    }

    /** Makes a saved array the current one. */
    method Commit(updated: array<KeyEntry>)
      requires updated != store.slots && updated != entries && Consistent(updated[..])
      modifies this`store, this`entries, updated
      ensures Valid() && entries == updated && store.slots == updated && fresh(store)
      ensures updated[..] == old(updated[..])
    {
      ghost var before := updated[..];
      entries := updated;
      store := new KeyStore(updated, hasher);
      assert AllMigrated(before) == before;
    }

    /** A generated key repeats none that is stored. */
    method Create(clientID: string, rawKey: RawKey, roles: seq<string>, now: Instant, expiresAt: Instant, saves: bool)
      returns (r: Option<KeyError>)
      requires Valid() && Opened(entries[..], hasher, rawKey).None?
      modifies this
      ensures Valid() && Held() == StoreStep(old(Held()), hasher, KeyOp.Create(clientID, rawKey, roles, now, expiresAt), saves)
      ensures r == Failure(old(entries[..]), hasher, KeyOp.Create(clientID, rawKey, roles, now, expiresAt), saves)
      ensures r == Some(ClientExists) <==> (exists i :: 0 <= i < |old(entries[..])| && old(entries[..])[i].id == clientID)
      ensures r == Some(PersistFailed) <==> !saves && r != Some(ClientExists)
      ensures r in {None, Some(ClientExists), Some(PersistFailed)}
      ensures r.Some? ==> Held() == old(Held())
      ensures if r.None? then fresh(entries) && fresh(store.slots) else entries == old(entries) && store == old(store)
    {
      hide Opened, Consistent, IndexAgrees, EnabledIn;
      ghost var op := KeyOp.Create(clientID, rawKey, roles, now, expiresAt);
      FailsBecause(Held(), hasher, op, saves);
      var i := FindID(clientID);
      if i.Some? {
        return Some(ClientExists);
      }
      var updated := new KeyEntry[entries.Length + 1](
        j requires 0 <= j < entries.Length + 1 reads this, entries =>
          if j < entries.Length then entries[j] else NewEntry(hasher, clientID, rawKey, roles, now, expiresAt));
      assert updated[..] == Apply(entries[..], hasher, op).value;
      ApplyKeepsConsistent(entries[..], hasher, op);
      r := SaveAndCommit(updated, saves);
    }

    method Update(clientID: string, upd: KeyUpdate, saves: bool) returns (r: Option<KeyError>)
      requires Valid()
      modifies this
      ensures Valid() && Held() == StoreStep(old(Held()), hasher, KeyOp.Update(clientID, upd), saves)
      ensures r == Failure(old(entries[..]), hasher, KeyOp.Update(clientID, upd), saves)
      ensures r == Some(ClientMissing) <==> !(exists i :: 0 <= i < |old(entries[..])| && old(entries[..])[i].id == clientID)
      ensures r == Some(PersistFailed) <==> !saves && r != Some(ClientMissing)
      ensures r in {None, Some(ClientMissing), Some(PersistFailed)}
      ensures r.Some? ==> Held() == old(Held())
      ensures if r.None? then fresh(entries) && fresh(store.slots) else entries == old(entries) && store == old(store)
    {
      hide Opened, Consistent, IndexAgrees, EnabledIn;
      ghost var op := KeyOp.Update(clientID, upd);
      FailsBecause(Held(), hasher, op, saves);
      var idx := FindID(clientID);
      if idx.None? {
        return Some(ClientMissing);
      }
      var updated := CopyEntries(entries);
      if upd.enabled.Some? {
        updated[idx.value] := updated[idx.value].(enabled := upd.enabled.value);
      }
      if upd.roles.Some? {
        updated[idx.value] := updated[idx.value].(roles := upd.roles.value);
      }
      if upd.expiresAt.Some? {
        updated[idx.value] := updated[idx.value].(expiresAt := upd.expiresAt.value);
      }
      assert updated[..] == Apply(entries[..], hasher, op).value;
      ApplyKeepsConsistent(entries[..], hasher, op);
      r := SaveAndCommit(updated, saves);
    }

    method Delete(clientID: string, saves: bool) returns (r: Option<KeyError>)
      requires Valid()
      modifies this
      ensures Valid() && Held() == StoreStep(old(Held()), hasher, KeyOp.Delete(clientID), saves)
      ensures r == Failure(old(entries[..]), hasher, KeyOp.Delete(clientID), saves)
      ensures r == Some(ClientMissing) <==> !(exists i :: 0 <= i < |old(entries[..])| && old(entries[..])[i].id == clientID)
      ensures r == Some(PersistFailed) <==> !saves && r != Some(ClientMissing)
      ensures r in {None, Some(ClientMissing), Some(PersistFailed)}
      ensures r.Some? ==> Held() == old(Held())
      ensures if r.None? then fresh(entries) && fresh(store.slots) else entries == old(entries) && store == old(store)
    {
      hide Opened, Consistent, IndexAgrees, EnabledIn;
      ghost var op := KeyOp.Delete(clientID);
      FailsBecause(Held(), hasher, op, saves);
      var idx := FindID(clientID);
      if idx.None? {
        return Some(ClientMissing);
      }
      var updated := new KeyEntry[entries.Length - 1](
        j requires 0 <= j < entries.Length - 1 reads this, entries =>
          if j < idx.value then entries[j] else entries[j + 1]);
      assert updated[..] == Apply(entries[..], hasher, op).value;
      ApplyKeepsConsistent(entries[..], hasher, op);
      r := SaveAndCommit(updated, saves);
    }

    method SaveAndCommit(updated: array<KeyEntry>, saves: bool) returns (r: Option<KeyError>)
      requires Valid() && updated != store.slots && updated != entries && Consistent(updated[..])
      modifies this, updated
      ensures Valid() && updated[..] == old(updated[..])
      ensures r == if saves then None else Some(PersistFailed)
      ensures saves ==> Held() == Stored(updated[..], updated[..])
      ensures saves ==> entries == updated && store.slots == updated && fresh(store)
      ensures !saves ==> Held() == old(Held()) && entries == old(entries) && store == old(store)
    {
      SaveKeysFile(updated, saves);
      if !saves {
        return Some(PersistFailed);
      }
      Commit(updated);
      r := None;
    }

    method FindID(id: string) returns (r: Option<nat>)
      ensures r == IndexOfID(entries[..], id)
    {
      for i := 0 to entries.Length
        invariant forall k :: 0 <= k < i ==> entries[k].id != id
      {
        if entries[i].id == id {
          assert IndexOfID(entries[..], id) == Some(i) by {
            assert entries[..][i].id == id;
          }
          return Some(i);
        }
      }
      assert forall k :: 0 <= k < entries.Length ==> entries[..][k].id != id;
      r := None;
    }

    method Lookup(raw: RawKey, now: Instant) returns (e: Option<EntryRef>, reason: RejectReason)
      requires Valid()
      ensures e.Some? <==> Opened(entries[..], hasher, raw).Some?
      ensures e.Some? ==> e.value.slots == store.slots && e.value.i < store.slots.Length
                          && Opened(entries[..], hasher, raw) == Some(store.slots[e.value.i])
      ensures reason == Classify(Opened(entries[..], hasher, raw), now)
    {
      FindKeyFinds(entries[..], Candidates(hasher, raw));
      e := store.Lookup(raw);
      reason := Classify(if e.None? then None else Some(e.value.slots[e.value.i]), now);
    }

    method UsableCount(now: Instant) returns (count: nat)
      requires Valid()
      ensures count == UsableIn(entries[..], now)
    {
      count := 0;
      for i := 0 to entries.Length
        invariant count == UsableIn(entries[..i], now)
      {
        assert entries[..i + 1][..i] == entries[..i];
        if Classify(Some(entries[i]), now) == RejectNone {
          count := count + 1;
        }
      }
      assert entries[..entries.Length] == entries[..];
    }

    /** The entry handed out keeps all its fields, whatever the store does afterwards. */
    method HeldEntryNeverChanges(raw: RawKey, now: Instant, ops: seq<(KeyOp, bool)>) returns (e: Option<EntryRef>)
      requires Valid()
      modifies this
      ensures Valid()
      ensures e.Some? ==> e.value.i < e.value.slots.Length
      ensures (if e.None? then None else Some(e.value.slots[e.value.i])) == old(Opened(entries[..], hasher, raw))
    {
      var reason;
      e, reason := Lookup(raw, now);
      for k := 0 to |ops|
        invariant Valid()
      {
        var r;
        match ops[k].0
        case Create(id, issued, roles, createdAt, expiresAt) =>
          if Opened(entries[..], hasher, issued).None? {
            r := Create(id, issued, roles, createdAt, expiresAt, ops[k].1);
          }
        case Update(id, upd) => r := Update(id, upd, ops[k].1);
        case Delete(id) => r := Delete(id, ops[k].1);
      }
    }

    /** A request is let in exactly when its key opens an entry that is enabled and has not expired, as
        the client of that entry. */
    method Authenticate(token: RawKey, now: Instant) returns (r: Result<Claims, AuthError>)
      requires Valid()
      ensures r == match Opened(entries[..], hasher, token)
                   case None => Err(InvalidKey)
                   case Some(entry) =>
                     if !entry.enabled then Err(KeyRevoked)
                     else if entry.expiresAt != 0 && entry.expiresAt <= now then Err(KeyExpired)
                     else Ok(Claims(entry.id, entry.roles))
      ensures r.Ok? ==> exists i :: 0 <= i < entries.Length && Probed(hasher, token, entries[i].hash)
                                    && r.value == Claims(entries[i].id, entries[i].roles)
    {
      var e, reason := Lookup(token, now);
      OpenedIff(entries[..], hasher, token);
      r := Validate(hasher, token, if e.None? then None else Some(e.value.slots[e.value.i]), reason);
    }
  }
}
