/** internal/auth/keyhasher.go and internal/auth/apikey_validator.go. Digests are free terms: two
    digests are equal only if scheme, pepper and raw key are. */
module KeyHashing {
  import opened Outcomes

  type RawKey = string

  type Pepper = string

  datatype Digest =
    | NoDigest
    | Plain(raw: RawKey)
    | Keyed(pepper: Pepper, raw: RawKey)

  datatype HashCandidate = HashCandidate(hash: Digest, version: int)

  /** A nil hasher is one without peppers. */
  datatype Hasher = Hasher(active: Option<Pepper>, previous: Option<Pepper>)

  function NewHasher(active: Pepper, previous: Pepper): Hasher {
    Hasher(if active == "" then None else Some(active), if previous == "" then None else Some(previous))
  }

  function HashForStore(h: Hasher, raw: RawKey): HashCandidate {
    match h.active
    case None => HashCandidate(Plain(raw), 0)
    case Some(pepper) => HashCandidate(Keyed(pepper, raw), 1)
  }

  function Candidates(h: Hasher, raw: RawKey): seq<HashCandidate> {
    [HashCandidate(Plain(raw), 0)]
    + (if h.active.Some? then [HashCandidate(Keyed(h.active.value, raw), 1)] else [])
    + (if h.previous.Some? then [HashCandidate(Keyed(h.previous.value, raw), 1)] else [])
  }

  /** Whether a stored digest is one that raw is probed with. */
  predicate Probed(h: Hasher, raw: RawKey, hash: Digest) {
    || hash == Plain(raw)
    || (h.active.Some? && hash == Keyed(h.active.value, raw))
    || (h.previous.Some? && hash == Keyed(h.previous.value, raw))
  }

  /** What a configured pair of peppers probes and stores: the digest under the active one, or the plain
      digest. An empty pepper is no pepper: nothing is ever keyed with the empty string. */
  lemma ConfiguredPeppers(active: Pepper, previous: Pepper, raw: RawKey, hash: Digest)
    ensures Probed(NewHasher(active, previous), raw, hash) <==>
            || hash == Plain(raw)
            || (hash.Keyed? && hash.raw == raw && hash.pepper != "" && hash.pepper in {active, previous})
    ensures HashForStore(NewHasher(active, previous), raw)
         == if active == "" then HashCandidate(Plain(raw), 0) else HashCandidate(Keyed(active, raw), 1)
  {
  }

  lemma CandidatesAreProbed(h: Hasher, raw: RawKey, hash: Digest)
    ensures Probed(h, raw, hash) <==> exists i :: 0 <= i < |Candidates(h, raw)| && Candidates(h, raw)[i].hash == hash
    ensures forall c :: c in Candidates(h, raw) ==> c.hash != NoDigest
  {
    var cs := Candidates(h, raw);
    assert cs[0].hash == Plain(raw);
    if h.active.Some? {
      assert cs[1].hash == Keyed(h.active.value, raw);
    }
    if h.previous.Some? {
      assert cs[|cs| - 1].hash == Keyed(h.previous.value, raw);
    }
  }

  /** What is stored for a key is always among what it is later looked up by. */
  lemma StoredDigestIsProbed(h: Hasher, raw: RawKey)
    ensures HashForStore(h, raw) in Candidates(h, raw) && Probed(h, raw, HashForStore(h, raw).hash)
  {
    var cs := Candidates(h, raw);
    if h.active.Some? {
      assert cs[1] == HashForStore(h, raw);
    } else {
      assert cs[0] == HashForStore(h, raw);
    }
  }

  // ---------- entries ----------

  datatype KeyEntry = KeyEntry(
    id: string,
    key: RawKey,
    hash: Digest,
    version: int,
    prefix: string,
    enabled: bool,
    createdAt: Instant,
    roles: seq<string>,
    expiresAt: Instant)

  datatype RejectReason = RejectNone | RejectNotFound | RejectExpired | RejectRevoked

  function Classify(e: Option<KeyEntry>, now: Instant): RejectReason {
    if e.None? then RejectNotFound
    else if !e.value.enabled then RejectRevoked
    else if e.value.expiresAt != 0 && now >= e.value.expiresAt then RejectExpired
    else RejectNone
  }

  // ---------- the validator ----------

  datatype Claims = Claims(clientID: string, roles: seq<string>)

  datatype AuthError = InvalidKey | KeyExpired | KeyRevoked

  /** Checks the entry found once more, against every candidate digest of the token. */
  method Validate(h: Hasher, token: RawKey, found: Option<KeyEntry>, reason: RejectReason)
    returns (r: Result<Claims, AuthError>)
    requires reason == RejectNone ==> found.Some?
    ensures r.Ok? <==> reason == RejectNone && Probed(h, token, found.value.hash)
    ensures r.Ok? ==> r.value == Claims(found.value.id, found.value.roles)
    ensures reason == RejectExpired ==> r == Err(KeyExpired)
    ensures reason == RejectRevoked ==> r == Err(KeyRevoked)
    ensures reason == RejectNotFound ==> r == Err(InvalidKey)
  {
    match reason
    case RejectNotFound => return Err(InvalidKey);
    case RejectExpired => return Err(KeyExpired);
    case RejectRevoked => return Err(KeyRevoked);
    case RejectNone =>
      var matches := 0;
      var cands := Candidates(h, token);
      for i := 0 to |cands|
        invariant matches == 0 || matches == 1
        invariant matches == 1 <==> exists j :: 0 <= j < i && cands[j].hash == found.value.hash
      {
        if cands[i].hash == found.value.hash {
          matches := 1;
        }
      }
      CandidatesAreProbed(h, token, found.value.hash);
      r := if matches != 1 then Err(InvalidKey) else Ok(Claims(found.value.id, found.value.roles));
  }
}
