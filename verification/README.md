# A verified model of the NVNM MCP server's stateful core

This project models, in Dafny 4.11, the parts of the NVNM MCP server that keep state across requests, and proves what
holds over whole runs of them. `dafny verify dfyconfig.toml` checks everything.

| file | part of the server |
|---|---|
| `TokenBuckets.dfy`, `ExactAdmission.dfy`, `KeyedRate.dfy`, `ConcurrentRate.dfy` | bounded caches of per-key token buckets: TTL sweep, LRU eviction, when a call is refused, the failed-authentication limiter, concurrent calls |
| `Forwarded.dfy` | which address of an `X-Forwarded-For` chain is believed |
| `Cursors.dfy`, `RegistryPaging.dfy` | paging over a registry table on a chain: listing, total, scan by name, windows |
| `KeyHashing.dfy`, `ManagedKeys.dfy`, `PostgresKeys.dfy`, `RowFields.dfy` | API keys: digests under rotating peppers, the file-backed store with its hash index, the Postgres store and what its rows show |
| `PendingKeys.dfy`, `Approval.dfy` | requests for keys, and reviewers who approve and reject them concurrently |
| `SignerQuota.dfy`, `WriteAudit.dfy`, `WriteRelay.dfy`, `RelayTrace.dfy`, `QuotaBound.dfy` | the scoped relay of signed transactions, its audit trail and its per-signer quota |
| `Purge.dfy` | the retention purge and the configuration it depends on |
| `Untrusted.dfy` | capping untrusted text on a rune boundary |
| `Outcomes.dfy` | options, results, instants and bytes |

Objects the server updates in place are classes whose methods are proved equal to one step of a state machine on values;
the lemmas are about all runs of those machines. Concurrency is interleaving: a step is what the server does under one
lock or in one statement on shared state. The check of a relayed call reads the clock, asks the blacklist and reads the
counter; it is the step that reads the counter, and the clock may have been read up to a given delay before. What comes
from outside (clock, randomness, whether a save or a query succeeds, what a chain node answers) is a parameter, so every
claim holds however the outside behaves.

## Where a property has a condition

Some properties one would expect hold only under a condition. The code is modelled as it is, and the condition is exact
unless a line says otherwise.

- The sweep of idle buckets is invisible if and only if one TTL refills a whole burst (`SweepIsInvisibleIff`). The
  shipped defaults meet it.
- The bucket map exceeds its cap exactly when the least recently used key is the empty string, or the cap is zero:
  `evictLRULocked` takes the empty string for "nothing found" (`StepKeepsCapIff`); then it grows without bound, whatever
  the cap (`EmptyKeyDefeatsCap`). The failure limiter and the per-client limiter let no empty key through. The two other
  callers of `clientIP`, the anonymous-read limiter (internal/mcp/anonrate.go:57) and the key-request handler
  (internal/mcp/keys_request_http.go:128), do, exactly when the socket peer has no address and no trusted entry is
  chosen (`EmptyAddressIff`).
- A forged `X-Forwarded-For` prefix is without effect if and only if the trusted proxies added an entry per hop
  (`ForgeryIsPowerlessIff`).
- A listing total that is flagged as a lower bound is one, except for an offset past the end of the table with no rows
  and a failed peek (`ListingTotalIsSound`).
- `scanRegistriesByName` is documented to flag a scan when a registry is added concurrently, and to stop on a short page.
  The code stops on an empty `next_key`. While IDs are dense at the peek, it flags a scan exactly when the table has grown
  beyond the fifty pages it reads; growth within them is never flagged (`DenseScanFlaggedIff`).
- `handleApprovePending` calls `ErrClientExists` unreachable. It is what a reviewer gets exactly when the request was
  approved meanwhile, another reviewer is midway with it, or its key was orphaned (`MintRefusedIff`).
- At rest, keys and approved requests match if and only if no rollback deletion failed to save (`KeysMatchApprovals`,
  `OrphanedIff`; `OrphanRun` is a run that leaves an orphan).
- A Postgres lookup reads a row and rehashes it in a second statement that names the row by its ID only. Rows keep their
  own keys, and keys of removed rows stay dead, if and only if no saved rehash lands on an ID that was removed and
  inserted again since its own read (`OwnKeysIffNoStray`). `LateRehashSwapsKeys` is a run where one does: the removed key
  opens the new row and the new key is dead. Whatever races, a key never opens another client's row
  (`KeysStayWithClients`).
- A key under a pepper survives rotations while its row is rehashed in between, and is otherwise lost at the second one
  (`RefreshedRowResolves`, `UnrefreshedKeyIsLostIff`).
- A call is refused exactly when it would break the bound on admissions for some stretch of the run that ends with it,
  while no bucket of its key that was not full is dropped (`AllowedIffWithinBound`).
- The signer quota is exceeded by up to one less than the number of concurrent calls, and that is reached
  (`QuotaCeiling`, `CeilingIsReached`).
- The purge of `signer_quota` spares the counters of quota windows that are running at its clock if and only if its
  window is at least the quota window less one nanosecond; no check at boot relates the two
  (`PurgeSparesLiveCountersIff`). A check may still read a counter after its window, for as long as it takes from reading
  the clock to reading the counter. With that delay added to the retention window the quota ceiling holds with purges in
  between (`QuotaCeilingWithPurges`), and with any shorter one it can be passed by calls one after the other
  (`ShortRetentionBreaksCeiling`).
- After a failed statement, a sweep reports fewer rows than it deleted if and only if that statement had finished a batch,
  or it was the ordinary delete on `write_audit` and there were grantRole rows to delete before it
  (`ReportFallsShortIff`).

## Model

| member | source | states |
|---|---|---|
| TokenBuckets.SweepIsInvisible | internal/mcp/keyedrate.go:86-118 | For every interleaving of calls, peeks and sweeps that evicts nobody, the cache gives the answers of an unbounded map of buckets, when a TTL (less the skew of two clock reads) refills a burst |
| TokenBuckets.SweepIsInvisibleIff | internal/mcp/keyedrate.go:86-118 | That agreement holds for all runs if and only if rate times TTL is at least the burst |
| TokenBuckets.ShortTTLIsVisible | internal/mcp/keyedrate.go:86-95 | With a shorter TTL some run gets an answer the unbounded limiter would not give |
| TokenBuckets.SweptWasFull | internal/mcp/keyedrate.go:86-95 | A bucket the sweep drops was full, so recreating it changes nothing |
| TokenBuckets.AdmissionBoundAnyTTL | internal/mcp/keyedrate.go:86-134 | For every TTL, in any stretch of any run one key is admitted at most (1 + drops of a bucket of it that was not full) times the burst, plus rate times elapsed time |
| TokenBuckets.LossesAreEvictions | internal/mcp/keyedrate.go:86-134 | When a TTL refills a burst, only evictions drop a bucket that was not full |
| TokenBuckets.AdmissionBound | internal/mcp/keyedrate.go:99-134 | So then one key is admitted at most (1 + evictions of that key) times the burst, plus rate times elapsed time |
| TokenBuckets.NoEvictionsBelowCap | internal/mcp/keyedrate.go:112-114 | While no new key finds the cap reached, nothing is evicted |
| ExactAdmission.AllowedIffWithinBound | internal/mcp/keyedrate.go:99-118 | While no bucket of the key that was not full is dropped, a call is refused exactly when it would break that bound for some stretch of the run that ends with it |
| ExactAdmission.RestedCallIsAllowed | internal/mcp/keyedrate.go:99-118 | In any run, evictions and sweeps included, a call is allowed when the rate has earned one token since the last call of its key |
| ExactAdmission.RefusedCallIsFree | internal/mcp/keyedrate.go:99-118 | A refused call takes nothing from the bucket of any key it does not evict |
| ExactAdmission.FreshKeyHasBurst | internal/mcp/keyedrate.go:115-116 | A key without a bucket is allowed exactly when the burst is at least one |
| ConcurrentRate.TwoStepBound | internal/mcp/keyedrate.go:99-118 | With getting a bucket and taking from it apart, and at most k calls of a key in between: (1 + drops of the key) times the burst, plus rate times elapsed time, plus k tokens per drop, plus the calls that held an old bucket at the start, k at most; whichever keys are evicted |
| ConcurrentRate.StraysAreFew | internal/mcp/keyedrate.go:99-101 | Tokens taken from buckets that are no longer their key's: at most k per drop, plus the calls that held one at the start |
| ConcurrentRate.TogetherIsOneEvent | internal/mcp/keyedrate.go:99-118 | With no other step in between, the two steps are the one step of the sequential limiter, with its answer |
| TokenBuckets.StepKeepsCapIff | internal/mcp/keyedrate.go:112-134 | One step exceeds the cap exactly when room is needed and the victim is the empty key |
| TokenBuckets.CapHolds | internal/mcp/keyedrate.go:112-134 | With non-empty keys and a positive cap no run exceeds the cap |
| TokenBuckets.EmptyKeyDefeatsCap | internal/mcp/keyedrate.go:120-134 | Whatever the cap, an old empty key lets the map grow to any size |
| KeyedRate.KeyedRateLimiter.SweepIdle | internal/mcp/keyedrate.go:86-95 | The loop deletes exactly the entries idle for longer than the TTL, and changes no other |
| KeyedRate.KeyedRateLimiter.EvictLRU | internal/mcp/keyedrate.go:120-134 | The victim has minimal lastUsed, whatever order the map is walked in |
| KeyedRate.KeyedRateLimiter.LimiterFor | internal/mcp/keyedrate.go:103-118 | Touches a known key, or makes room and creates a full bucket; a key is lost only when a new one finds the cap reached, and it is then least recently used |
| KeyedRate.KeyedRateLimiter.Allow | internal/mcp/keyedrate.go:99-101 | One consuming step of the cache, and its answer; the entry is touched, a refusal leaves its bucket |
| KeyedRate.KeyedRateLimiter.WithDefaults | internal/mcp/keyedrate.go:48-57 | An empty map, thirty minutes, ten thousand keys |
| FailRate.IPFailRateLimiter.Penalize | internal/mcp/failrate.go:231-237 | One consuming step; an empty address changes nothing |
| FailRate.IPFailRateLimiter.Peek | internal/mcp/failrate.go:242-251 | Whether a whole token is there; refreshes or creates the entry without spending |
| FailRate.DefaultsAgree | internal/mcp/failrate.go:20-25 | Under the default rate of one, burst of five and fifteen minutes the sweep is invisible |
| Forwarded.EntriesAppend | internal/mcp/failrate.go:154-171 | Entries of `a,b` are the entries of a followed by those of b, for all strings |
| Forwarded.OneFieldOneEntry | internal/mcp/failrate.go:154-171 | A field without a comma is one entry: its text between blanks and tabs, or none |
| Forwarded.ParseXFF | internal/mcp/failrate.go:154-171 | The loop computes the trimmed non-empty fields between commas |
| Forwarded.IndexByte | internal/mcp/failrate.go:176-183 | The first occurrence, or -1 when there is none |
| Forwarded.TrimSpace | internal/mcp/failrate.go:192-201 | Blanks and tabs are removed from both ends and nowhere else |
| Forwarded.TrimStrips | internal/mcp/failrate.go:192-201 | All blanks and tabs around a text go, whatever it holds, and the text stays |
| Forwarded.ClientIP | internal/mcp/failrate.go:127-139 | The hop walk picks the believed address |
| Forwarded.TrustedEntryIsBelieved | internal/mcp/failrate.go:127-139 | With enough trusted entries, the entry `hops` from the right is chosen for every client-supplied prefix |
| Forwarded.ShortChainIsPeer | internal/mcp/failrate.go:127-137 | With too few entries, no hops, or no trust in proxies, the socket peer is chosen |
| Forwarded.EmptyAddressIff | internal/mcp/failrate.go:127-139 | The address is empty exactly when the peer's is and no trusted entry is chosen |
| Forwarded.ForgeryIsPowerlessIff | internal/mcp/failrate.go:127-139 | No prefix changes the answer if and only if the trusted part has an entry per hop |
| Cursors.Base64RoundTrip | internal/anchor/types.go:101-119 | Decoding inverts encoding for all bytes (section 4 of RFC 4648) |
| Cursors.DigitsAreTheAlphabet | internal/anchor/types.go:101-107 | The digits are those of table 1 of RFC 4648, and four digits are the number three bytes are |
| Cursors.KnownTexts | internal/anchor/types.go:101-107 | The texts section 10 of RFC 4648 gives |
| Cursors.DecodedLength | internal/anchor/types.go:109-119 | A text is decoded only if its length is four for every three bytes begun |
| Cursors.BreakIsSkipped | internal/anchor/types.go:109-119 | Line breaks are skipped wherever they stand |
| Cursors.CursorRoundTrip | internal/anchor/types.go:101-119 | Cursors survive the text form, and only the empty cursor has an empty text |
| Cursors.IDBytesRoundTrip | internal/mcp/tools_anchor.go:263-267 | The eight-byte cursor names its registry ID |
| Cursors.HighestByteFirst | internal/mcp/tools_anchor.go:263-267 | The highest byte of the ID comes first |
| Cursors.HandedOutCursorIsAccepted | internal/mcp/tools_anchor.go:242-261 | Every cursor the listing hands out is accepted back and names the same registry |
| Cursors.ListingCursorIff | internal/mcp/tools_anchor.go:242-267 | A key gets through exactly when it is a text for the cursor of some 64-bit registry ID and no offset comes with it, and it then means that ID |
| RegistryPaging.HandleListing | internal/mcp/tools_anchor.go:294-344 | Over a growing table the chained fetches return one contiguous run, as long as it can be, with next_key and total; fails only with the chain |
| RegistryPaging.FixedTableListing | internal/mcp/tools_anchor.go:294-344 | On a fixed table: the run, exactly min(limit, 10000, remaining) rows at a cap of 200, and what the total is worth |
| RegistryPaging.ListingTotalIsSound | internal/mcp/tools_anchor.go:362-378 | An unflagged total is never below the table size; when it is exact; when a flagged one is a lower bound |
| RegistryPaging.KeyLeadsOn | internal/mcp/tools_anchor.go:283-287 | Passing next_key back continues at the row behind the page |
| RegistryPaging.FollowVisitsAll | internal/mcp/tools_anchor.go:279-287 | On a fixed table, following next_key, with any limits, visits every registry once, in order, and ends |
| RegistryPaging.FollowedIsContiguous | internal/mcp/tools_anchor.go:279-344 | Over a growing table, with any limits and delays, following next_key gives one contiguous run without repeats, and no key exactly when the table ended |
| RegistryPaging.ScanByName | internal/mcp/tools_anchor.go:590-656 | Over a growing table the matches are the filter, in order, of a prefix of the table at the last page; when the scan is flagged |
| RegistryPaging.MatchingIsFilter | internal/mcp/tools_anchor.go:627-645 | The matches are exactly the rows whose name matches, each once, by increasing ID |
| RegistryPaging.UntruncatedIsComplete | internal/mcp/tools_anchor.go:647-651 | A scan that is not flagged holds every match of the table at its last page |
| RegistryPaging.DenseScanFlaggedIff | internal/mcp/tools_anchor.go:578-655 | While IDs are dense at the peek, a scan is flagged exactly when the table has grown beyond its reach |
| RegistryPaging.GapsFlagScan | internal/mcp/tools_anchor.go:647-651 | With gaps in the IDs every scan of a table that did not grow is flagged |
| RegistryPaging.WindowIsSlice | internal/mcp/tools_anchor.go:491-503 | For all 64-bit offset and limit, wrap-around included, the page is the mathematical slice |
| RegistryPaging.WindowsTile | internal/mcp/tools_anchor.go:491-503 | The pages at 0, L, 2L, ... concatenate to the whole list |
| KeyHashing.CandidatesAreProbed | internal/auth/keyhasher.go:69-81 | The candidates are exactly the plain digest and those under the configured peppers |
| KeyHashing.ConfiguredPeppers | internal/auth/keyhasher.go:34-67 | What is probed and what is stored for a configured pair of peppers; an empty pepper is no pepper |
| KeyHashing.StoredDigestIsProbed | internal/auth/keyhasher.go:57-81 | What is stored for a key is always among its candidates |
| KeyHashing.Validate | internal/auth/apikey_validator.go:76-97 | Accepts exactly an accepted lookup whose digest is a candidate of the token; the error for each reason |
| KeyEntries.MigrationSettles | internal/mcp/keys.go:168-188 | A second migration changes nothing; a legacy key stays findable under every hasher, its text is gone but for eight characters, and every other field and entry stays |
| KeyEntries.OpenedIff | internal/mcp/keys.go:196-203 | A raw key opens something exactly when some entry holds one of its digests, and then such an entry |
| KeyEntries.RunKeepsConsistent | internal/mcp/managed_keys.go:244-344 | Every run, with saves failing at will, keeps IDs and digests unique and memory equal to file |
| KeyEntries.CreatedKeyOpens | internal/mcp/managed_keys.go:256-276 | A key that was issued opens its own entry and no other: enabled, with the roles and instants given, the active digest and no raw key |
| KeyEntries.OthersStayOpen | internal/mcp/managed_keys.go:280-344 | An operation on one client leaves what other clients' keys open |
| KeyEntries.DeletedKeyIsDead | internal/mcp/managed_keys.go:318-344 | The key of a deleted client opens nothing |
| KeyEntries.UpdateSetsFields | internal/mcp/managed_keys.go:280-315 | After a saved update a key opens an entry with the values given, and every other field as before |
| KeyEntries.FailsBecause | internal/mcp/managed_keys.go:244-344 | An operation fails because the client is there, is not there, or the save failed, and then changes nothing |
| KeyEntries.KeyFollowsItsClient | internal/mcp/managed_keys.go:198-344 | Through every run a key opens its client's entry until a deletion is saved, and nothing afterwards |
| KeyEntries.IssuedKeyLives | internal/mcp/managed_keys.go:244-344 | The same from the creation of the key on |
| KeyEntries.KeyShowsLastUpdates | internal/mcp/managed_keys.go:244-344 | Through every run without its deletion a key opens an entry with the values saved updates gave last, and every other field as at the start |
| KeyEntries.DisabledKeyIsRevoked | internal/mcp/managed_keys.go:280-315 | A key whose client a saved update disabled is refused as revoked until a saved update enables the client |
| ManagedKeys.IndexIsScan | internal/mcp/keys.go:147-156 | The hash index equals a linear scan of the entries |
| ManagedKeys.MigrateLegacyEntries | internal/mcp/keys.go:168-188 | Normalizes every entry in place; the count is zero exactly when nothing changed |
| ManagedKeys.KeyStore.constructor | internal/mcp/keys.go:141-158 | The index and the count of enabled entries agree with the migrated entries |
| ManagedKeys.KeyStore.Lookup | internal/mcp/keys.go:196-203 | Probing the index finds what scanning the entries per candidate finds |
| ManagedKeys.ManagedKeyStore.FromEntries | internal/mcp/managed_keys.go:184-193 | A valid store over the migrated entries, with its own copy of them |
| ManagedKeys.ManagedKeyStore.SaveKeysFile | internal/mcp/keys.go:274-286 | A failed save leaves the file as it was |
| ManagedKeys.ManagedKeyStore.Create | internal/mcp/managed_keys.go:244-276 | Entries, index and file all follow, or none; which error; nothing handed out is written |
| ManagedKeys.ManagedKeyStore.Update | internal/mcp/managed_keys.go:280-315 | The same for an update |
| ManagedKeys.ManagedKeyStore.Delete | internal/mcp/managed_keys.go:318-344 | The same for a deletion |
| ManagedKeys.ManagedKeyStore.Lookup | internal/mcp/managed_keys.go:198-203 | A pointer to the entry the key opens, and its classification |
| ManagedKeys.ManagedKeyStore.HeldEntryNeverChanges | internal/mcp/managed_keys.go:198-203 | The entry behind that pointer keeps all its fields through any later operations |
| ManagedKeys.ManagedKeyStore.UsableCount | internal/mcp/managed_keys.go:217-228 | The number of entries that would be accepted now |
| ManagedKeys.UsableInZero | internal/mcp/managed_keys.go:212-228 | It is zero exactly when no key would be accepted |
| ManagedKeys.CountsAreSizes | internal/mcp/managed_keys.go:213-228 | The counts are the numbers of entries that are enabled, and that a lookup accepts now |
| ManagedKeys.ManagedKeyStore.Authenticate | internal/auth/apikey_validator.go:76-97 | A request is let in exactly when its key opens an enabled, unexpired entry, as that entry's client; which error otherwise |
| PostgresKeys.EveryTableIsAStart | internal/mcp/postgres_store.go:20-26 | Every table whose rows hold keys of their own is a start for the runs below |
| PostgresKeys.KeysStayWithClients | internal/mcp/postgres_store.go:54-88 | In every run, whatever races, a key opens one row at most, and only of the client it was issued to |
| PostgresKeys.OwnKeysIffNoStray | internal/mcp/postgres_store.go:60-85 | In every run, rows keep the keys they were created with and keys of removed rows stay dead if and only if no saved rehash lands on an ID removed and inserted again since its own read |
| PostgresKeys.LateRehashSwapsKeys | internal/mcp/postgres_store.go:83-85 | A run, from every deployment with a row to rehash, after which the removed key opens the new row and the new key is dead |
| PostgresKeys.DeadKeyStaysDeadIff | internal/mcp/postgres_store.go:60-85 | An issued key that opens nothing, removed or lost, never opens anything again if and only if no rehash of a lookup that read it before lands, other than one two rotations have overtaken |
| PostgresKeys.UnheldKeyStaysUnheldIff | internal/mcp/postgres_store.go:60-85 | A key no row holds is never held again if and only if no rehash of it lands at all |
| PostgresKeys.KeyResolvesIff | internal/mcp/postgres_store.go:54-88 | Over every run in which a client is not removed and no rehash of an earlier key of it lands, its row resolves from its key exactly while the digest is not lost, and from no other key |
| PostgresKeys.NoOldReadsNoneLands | internal/mcp/postgres_store.go:60-85 | None lands when no lookup of an earlier key is in flight at the start |
| PostgresKeys.NewRow | internal/mcp/postgres_store.go:110-143 | A new row resolves from its key at once, under the active pepper |
| PostgresKeys.RefreshedKeyIsKept | internal/mcp/postgres_store.go:74-88 | A digest last written under the active pepper before each rotation is never lost |
| PostgresKeys.RefreshedRowResolves | internal/mcp/postgres_store.go:54-88 | So over every such run the row resolves from its key and from no other |
| PostgresKeys.UnrefreshedKeyIsLostIff | internal/auth/keyhasher.go:64-81 | Without a rehash, exactly which digests are lost after how many rotations |
| PostgresKeys.ResolvesToItsClient | internal/mcp/postgres_store.go:60-62 | The candidate query matches one row at most, of the client the key was issued to |
| RowFields.RowShowsLastChanges | internal/mcp/postgres_store.go:146-184 | Through every run without its removal a row shows the values its changes gave last, and every other field as at the start, save the digest |
| RowFields.DisabledRowIsRevoked | internal/mcp/postgres_store.go:146-184 | A row that a change disabled is refused as revoked until a change enables it or it is removed |
| RowFields.NewRowShows | internal/mcp/postgres_store.go:110-143 | A new row is enabled, with the roles and instants given, the active digest and no raw key; other rows stay |
| PostgresKeys.PostgresKeyStore.Begin | internal/mcp/postgres_store.go:54-70 | The first statement: finds the row if the query is answered; only an accepted row that is not up to date goes on |
| PostgresKeys.PostgresKeyStore.Lookup | internal/mcp/postgres_store.go:54-72 | Both statements with nothing in between |
| PostgresKeys.PostgresKeyStore.MaybeRehash | internal/mcp/postgres_store.go:78-88 | The second statement, whenever it comes; the entry handed out shows the active digest even when the row could not be written |
| PostgresKeys.PostgresKeyStore.Authenticate | internal/auth/apikey_validator.go:76-97 | Lets in exactly the tokens of an enabled row that has not expired, as its client with its roles; the error for each reason |
| PostgresKeys.PostgresKeyStore.Create | internal/mcp/postgres_store.go:110-143 | Inserts the row, or which error and nothing changed |
| PostgresKeys.PostgresKeyStore.Update | internal/mcp/postgres_store.go:146-184 | Changes the row, also when reading it back fails; every error |
| PostgresKeys.PostgresKeyStore.Delete | internal/mcp/postgres_store.go:187-196 | Removes the row, or which error |
| PendingKeys.DecisionChangesOne | internal/mcp/keys_pending.go:240-279 | A decision changes the request it names and no other |
| PendingKeys.AddedRequestIsFound | internal/mcp/keys_pending.go:167-204 | A new request is found by its ID, and no other lookup changes |
| PendingKeys.RunEvolves | internal/mcp/keys_pending.go:167-279 | Over every run, with saves failing at will, a decided request never changes again |
| PendingKeys.DecisionMovesOne | internal/mcp/keys_pending.go:217-229 | What replacing one request does to each status count |
| PendingKeys.CountsAddUpIff | internal/mcp/keys_pending.go:217-229 | The three counts cover all requests exactly when every status is a known one |
| PendingKeys.PendingKeyStore.Add | internal/mcp/keys_pending.go:167-190 | Appends a pending request with no decision and each value in its own field, in memory and file, or leaves both |
| PendingKeys.PendingKeyStore.Get | internal/mcp/keys_pending.go:195-204 | The first request with the ID |
| PendingKeys.PendingKeyStore.CountByStatus | internal/mcp/keys_pending.go:217-229 | The count of every status, unknown ones included |
| PendingKeys.PendingKeyStore.Decide | internal/mcp/keys_pending.go:240-279 | Decides in memory and file, or leaves both; which fields change, and every error |
| Approval.StartIsAccounted | internal/mcp/admin_keys_pending.go:113-164 | Which stores the claims start from: at rest, with keys and approvals that match; empty ones among them |
| Approval.StepKeepsInv | internal/mcp/admin_keys_pending.go:113-164 | Every step of every reviewer keeps each key accounted for: approved, orphaned, or one reviewer midway |
| Approval.KeysMatchApprovals | internal/mcp/admin_keys_pending.go:113-164 | In every interleaving, at rest: keys are those of approved or orphaned requests, approved requests name theirs, at most one key per request, and the match is exact if and only if nothing was orphaned |
| Approval.OrphanedIff | internal/mcp/admin_keys_pending.go:143-153 | A key is orphaned exactly by a rollback that could not be saved |
| Approval.OrphanRun | internal/mcp/admin_keys_pending.go:113-164 | A run from empty stores that leaves a key without an approval |
| Approval.NoOrphansWhileUndosSave | internal/mcp/admin_keys_pending.go:143-153 | While rollbacks are saved nothing is orphaned |
| Approval.DecisionsAreFinal | internal/mcp/admin_keys_pending.go:141-164 | However reviewers interleave, a decided request never changes again |
| Approval.MintRefusedIff | internal/mcp/admin_keys_pending.go:127-139 | In every run, minting is refused the client ID exactly when the request is approved, another reviewer is midway, or its key was orphaned |
| Approval.SecondMintIsRefused | internal/mcp/admin_keys_pending.go:127-139 | The second of two concurrent approvals is refused the client ID, and changes nothing |
| Approval.StoreStepClients | internal/mcp/managed_keys.go:244-344 | What each store operation does to the set of clients, and when it fails |
| Approval.AddIsLawful | internal/mcp/keys_pending.go:168-176 | A request that is added is a submission the claims allow |
| Approval.AddThenApprove | internal/mcp/admin_keys_pending.go:101-209 | A request added under a new ID and approved, every save going through, is answered with 200 and its key opens an enabled reader; a rejection then gets 409 |
| Approval.HandleApprovePending | internal/mcp/admin_keys_pending.go:101-209 | The handler is the four protocol steps in sequence; its HTTP status from the request, the clients and the saves; with 200, the decision and what the key opens |
| Approval.HandleRejectPending | internal/mcp/admin_keys_pending.go:223-290 | The handler is the reject step; its HTTP status; with 200, the decision, and no other request changed |
| SignerQuota.WindowStartIsLastBoundary | internal/mcp/signer_quota.go:38-40 | The start is the last multiple of the window at or before now; without a window, now |
| SignerQuota.SameWindowIff | internal/mcp/signer_quota.go:38-40 | Two instants share a counter exactly when no boundary lies between them |
| SignerQuota.SignerQuotaStore.Count | internal/mcp/signer_quota.go:54-66 | The tally, zero without a row, nothing when the query fails |
| SignerQuota.SignerQuotaStore.Increment | internal/mcp/signer_quota.go:69-80 | Adds one to the slot and touches no other |
| WriteAudit.SelectorClassifies | internal/mcp/write_audit.go:47-52 | A selector names a method exactly when the calldata begins with its four bytes |
| WriteAudit.HexAt | internal/mcp/write_audit.go:51 | Two lower-case digits a byte, the high one first |
| WriteAudit.LoweredAt | internal/mcp/write_audit.go:96-97 | Letters from A to Z become lower case, nothing else changes |
| WriteAudit.StoredSelectorIsSelector | internal/mcp/write_audit.go:96-97 | Lower-casing a selector for storage changes nothing |
| WriteRelay.AdmittedIff | internal/mcp/tools_evm_write.go:261-418 | Which calls may be sent, in each of the three modes, and which bytes are |
| WriteRelay.RefusedBecause | internal/mcp/tools_evm_write.go:294-418 | The exact condition for each refusal; a banned signer is refused as banned whatever its quota |
| WriteRelay.StartBalances | internal/mcp/tools_evm_write.go:104-134 | A relay that has served nothing meets both claims below |
| WriteRelay.EveryCallCountsOnce | internal/mcp/tools_evm_write.go:129-225 | In every interleaving each call past its first checks is rejected once or sent once or waiting; the metrics add up, less what is not yet written down; no call is sent twice |
| WriteRelay.SentAndAudited | internal/mcp/tools_evm_write.go:173-225 | In every interleaving only anchor calls without value are sent; at rest the attempts are written down once each, in some order, and the audit table holds one row for each that the store took, in that order and with its fields |
| WriteRelay.MetricsCountOutcomes | internal/mcp/tools_evm_write.go:129-225 | In every interleaving the two broadcast counters are the numbers of attempts written down that went well and that failed |
| RelayTrace.OnlyWritersAreServed | internal/mcp/tools_evm_write.go:113-122 | In every interleaving a call gets past its first tests exactly when it was checked for a caller with a writer role and some text; nothing else is rejected or sent |
| RelayTrace.EveryAttemptWasChecked | internal/mcp/tools_evm_write.go:113-173 | Each attempt comes from a check of that call, by a writer, that admitted it against the counters of that moment |
| WriteRelay.ResolvedInScope | internal/mcp/relayscope.go:22-30 | An admitted call is in scope; keyless calls send the canonical bytes |
| WriteRelay.SendRawTxHandler.DecodeAndScope | internal/mcp/tools_evm_write.go:294-322 | The transaction, or which rejection, counted under its cause |
| WriteRelay.SendRawTxHandler.CheckSignerGates | internal/mcp/tools_evm_write.go:361-418 | Window start and refusal, counted under its cause |
| WriteRelay.SendRawTxHandler.PrepareKeylessBroadcast | internal/mcp/tools_evm_write.go:331-352 | Scope first, then the gates |
| WriteRelay.SendRawTxHandler.ResolveBroadcast | internal/mcp/tools_evm_write.go:261-285 | The three modes |
| WriteRelay.SendRawTxHandler.Send | internal/mcp/tools_evm_write.go:113-242 | A call with no other in between is check, broadcast, record and increment in sequence; its result, and what is sent, counted and written down; nothing without a role or a text |
| QuotaBound.AdmittedBelowRate | internal/mcp/tools_evm_write.go:372-415 | A keyless call is admitted against the counter it will increment, below the rate unless the store did not answer |
| QuotaBound.QuotaCountsSuccesses | internal/mcp/tools_evm_write.go:200-239 | A failed broadcast consumes no quota; a success is counted once, or is about to be, or its increment was lost |
| QuotaBound.QuotaCeiling | internal/mcp/tools_evm_write.go:227-239 | With at most k calls between check and increment, the count stays at or below rate + k - 1, plus unanswered checks; so does the number of broadcasts, plus lost increments |
| QuotaBound.AnsweredCeiling | internal/mcp/tools_evm_write.go:227-239 | While the quota store answers, the ceiling holds without exceptions, and at rest the counter has grown by exactly the broadcasts that went well |
| QuotaBound.CeilingIsReached | internal/mcp/signer_quota.go:21-30 | A run reaches rate + k - 1 |
| QuotaBound.QuotaCeilingWithPurges | internal/mcp/purge.go:178-187 | Both ceilings hold with purges of counters in between, when the retention window is at least the quota window less a nanosecond, plus the delay from the clock (tools_evm_write.go:372) to the counter (:399) |
| QuotaBound.ShortRetentionBreaksCeiling | internal/mcp/tools_evm_write.go:372-415 | With any shorter retention window, two calls one after the other pass the ceiling |
| Purge.AcceptedIffOutlives | internal/config/config.go:1036-1056 | A grantRole window is accepted exactly when grantRole rows outlive ordinary ones at every age, the interval is positive and the selector known; without one, when the interval is positive or there is no window |
| Purge.NewPurger | internal/mcp/purge.go:76-105 | A purger over the pool and configuration given, or the error for a missing pool or an unknown selector |
| Purge.AcceptedSweepKeepsGrantRole | internal/mcp/purge.go:226-264 | Under an accepted configuration a sweep deletes a grantRole row only past its own window, when every other row of its age is past its window too |
| Purge.RecordedRowIsClassified | internal/mcp/write_audit.go:88-97 | A row recorded for grantRole calldata is selected by the grantRole statement and no other, any other row by the ordinary one and no other |
| Purge.MayGoIffPastOwnWindow | internal/mcp/purge.go:226-264 | The statements select a row exactly when it is past its own window |
| Purge.DeleteBatched | internal/mcp/purge.go:270-300 | Whichever rows each batch picks: only selected rows go, all are reported; exactly how many go and which error ends it, from backlog, failing batch and cancelation |
| Purge.SweepsDrain | internal/mcp/purge.go:26-31 | Repeated sweeps take a ceiling each off the backlog and end at exactly the unexpired rows, no earlier than the ceilings cover it |
| Purge.TwoWindows | internal/mcp/purge.go:231-258 | The two statements on write_audit never select the same row |
| Purge.AuditPolicyEnforced | internal/mcp/purge.go:226-264 | When the statements that run do not fail and have no more than a ceiling to delete, what is left is exactly what is within its own window |
| Purge.Purger.PurgeWriteAudit | internal/mcp/purge.go:226-264 | Only rows past their own window go; exactly how many, what is reported and which error |
| Purge.Purger.PurgeOnce | internal/mcp/purge.go:165-214 | Table by table, what is deleted, what is reported and which error ends the sweep; later tables are left alone |
| Purge.ReportCountsRows | internal/mcp/purge.go:165-214 | Each field of the report counts the deleted rows of its own statement, grantRole rows told apart by their selector, up to the statement that failed |
| Purge.ReportFallsShortIff | internal/mcp/purge.go:165-214 | Rows deleted are missing from the report exactly when the failing statement had finished a batch, or was the ordinary one after grantRole rows |
| Purge.ShortAndExactReports | internal/mcp/purge.go:270-300 | Both happen: a backlog of 7000 whose second, or first, batch fails |
| Purge.PurgeSparesLiveCountersIff | internal/mcp/purge.go:178-187 | Running quota counters survive the purge if and only if its window covers the quota window |
| Untrusted.CappedIsValid | internal/mcp/untrusted.go:32-41 | Capping valid UTF-8 (section 4 of RFC 3629) gives valid UTF-8, keeps the longest valid prefix within the cap and drops at most three bytes of it |
| Untrusted.ValidPrefixIff | internal/mcp/untrusted.go:37-39 | In valid text a cut is valid exactly where a character starts |
| Untrusted.EncodedIsRecognized | internal/mcp/untrusted.go:37-39 | The encoding of every character (section 3 of RFC 3629) is recognized |
| Untrusted.RecognizedIsEncoded | internal/mcp/untrusted.go:37-39 | Only encodings of characters are recognized |
| Untrusted.CappedKeepsPrefix | internal/mcp/untrusted.go:32-41 | Of arbitrary bytes at most maxBytes are kept, from the front, and only the marker follows: an ellipsis and the length of the whole in decimal |
| Untrusted.DecimalRoundTrip | internal/mcp/untrusted.go:40 | The marker's digits read back as the length of the whole text |
| Untrusted.CapUntrusted | internal/mcp/untrusted.go:32-41 | The loop finds the last place a character may start; never out of range |

## Left out

- Floating point in golang.org/x/time/rate: rates, tokens and times are real numbers; the infinite rate is not modelled.
- The pointer to a bucket outlives the lock in `allow`: only `ConcurrentRate` takes the two steps apart; in the agreement with the unbounded limiter, touching an entry and spending its token are one step, at two clock readings.
- A statement that fails after the database has committed it: a failed statement has no effect here, in the purge, the quota counter, the audit table and the key store, so the exact conditions about failures assume that.
- Clocks of several servers: there is one clock.
- `net.SplitHostPort`: the socket peer is a parameter.
- Several `X-Forwarded-For` lines: the server reads the first one only, so the claims are about proxies that append to that line, not about one that adds a line of its own.
- Capping of text fields in listed rows: rows are an ID and a name; the cap itself is in `Untrusted`.
- Match modes and case folding of the by-name scan: the matcher is any predicate on names.
- Listing by registry ID, records, and defaults of page parameters: settled by reading one branch.
- Collisions of digests: digests are free terms, so equal digests have equal keys; HMAC's padding of short peppers is not modelled.
- Loading and backing up the keys file, JSON and file locks: a save succeeds or leaves the file as it was.
- Slices inside an entry (roles) are values: the model does not capture that copies of an entry share them.
- ManagedKeys.ManagedKeyStore.Create: takes the generated key as a parameter and demands that the store does not open with it; a failing random source is left out.
- PostgresKeys.PostgresKeyStore.Create: demands that the generated key was never issued before, for the same reason.
- Rolling restarts: a rotation gives new calls the new peppers at once, lookups in flight finish under those they began with, and new peppers were never used before.
- Two pending stores over one file: the claims are about one store object that alone writes its file.
- Approval.KeysMatchApprovals: assumes that nobody but reviewers creates or deletes keys of requests; approval over the Postgres store is not modelled.
- E-mail delivery, admin audit and request bodies of approve and reject.
- Decoding of transactions, RLP and signer recovery: what decoding yields is part of a call; addresses are numbers, so the case of their text is left out.
- Error texts, log lines and `boundAuditErr`; audit rows hold whether the broadcast went well.
- A relay without a metrics recorder: the counters are always there.
- Rounding of timestamps to microseconds in Postgres.
- The ticker of the purge, and the admin query of the audit table.
- SQL text: a statement is the set of rows it selects; which of them a batch deletes is left open.
