/** The limiters themselves: the object whose bucket map each call updates in place. Every method is
    one event of TokenBuckets, whose runs carry the properties. */
module KeyedRate {
  import opened TokenBuckets
  import opened ExactAdmission

  const DEFAULT_IDLE_TTL: real := 1800.0
  const DEFAULT_MAX_CLIENTS: nat := 10000

  class KeyedRateLimiter {
    const cfg: Config
    var buckets: Cache

    constructor (cfg: Config)
      ensures this.cfg == cfg && buckets == map[]
    {
      this.cfg := cfg;
      buckets := map[];
    }

    constructor WithDefaults(rps: real, burst: nat)
      ensures cfg.limits.rps == rps && cfg.limits.burst == burst && cfg.idleTTL == 1800.0 && cfg.maxKeys == 10000
      ensures buckets == map[]
    {
      cfg := Config(Limits(rps, burst), DEFAULT_IDLE_TTL, DEFAULT_MAX_CLIENTS);
      buckets := map[];
    }

    method SweepIdle(now: Time)
      modifies this
      ensures buckets == Step(cfg, old(buckets), Sweep(now))
      ensures forall k :: k in buckets <==> k in old(buckets) && old(buckets)[k].lastUsed + cfg.idleTTL >= now
      ensures forall k :: k in buckets ==> buckets[k] == old(buckets)[k]
    {
      var cutoff := now - cfg.idleTTL;
      var todo := buckets.Keys;
      while todo != {}
        invariant todo <= buckets.Keys <= old(buckets).Keys
        invariant forall k :: k in buckets ==> buckets[k] == old(buckets)[k]
        invariant forall k :: k in old(buckets) && k !in todo ==>
                                (k in buckets <==> !(old(buckets)[k].lastUsed < cutoff))
        decreases todo
      {
        var k :| k in todo;
        if buckets[k].lastUsed < cutoff {
          buckets := buckets - {k};
        }
        todo := todo - {k};
      }
    }

    /** Picks the first of the oldest entries in map order, and deletes it unless its key is "". */
    method EvictLRU() returns (ghost victim: Key)
      modifies this
      ensures if old(buckets) == map[] then victim == ""
              else victim in old(buckets)
                   && forall k :: k in old(buckets) ==> old(buckets)[victim].lastUsed <= old(buckets)[k].lastUsed
      ensures buckets == if victim == "" then old(buckets) else old(buckets) - {victim}
    {
      var oldestKey: Key, oldestAt: Time := "", 0.0;
      var first := true;
      var todo := buckets.Keys;
      while todo != {}
        invariant todo <= buckets.Keys && buckets == old(buckets)
        invariant first <==> todo == buckets.Keys
        invariant first ==> oldestKey == ""
        invariant !first ==> oldestKey in buckets && oldestKey !in todo && oldestAt == buckets[oldestKey].lastUsed
        invariant forall k :: k in buckets && k !in todo ==> oldestAt <= buckets[k].lastUsed
        decreases todo
      {
        var k :| k in todo;
        if first || buckets[k].lastUsed < oldestAt {
          oldestKey, oldestAt, first := k, buckets[k].lastUsed, false;
        }
        todo := todo - {k};
      }
      victim := oldestKey;
      if oldestKey != "" {
        buckets := buckets - {oldestKey};
      }
    }

    /** The bucket of a key, created full when missing. */
    method LimiterFor(key: Key, now: Time) returns (ghost victim: Key)
      modifies this
      ensures LegalVictim(cfg, old(buckets), key, victim)
      ensures buckets == Touched(cfg, old(buckets), key, now, victim)
      ensures key in buckets && buckets[key].lastUsed == now
      ensures key in old(buckets) ==>
                buckets[key].bucket == old(buckets)[key].bucket && buckets.Keys == old(buckets).Keys
      ensures key !in old(buckets) ==> buckets[key].bucket.tokens == cfg.limits.burst as real
      ensures forall k :: k in buckets && k != key ==> k in old(buckets) && buckets[k] == old(buckets)[k]
      ensures forall k :: k in old(buckets) && k !in buckets ==>
                && key !in old(buckets) && |old(buckets)| >= cfg.maxKeys && k == victim && k != ""
                && forall other :: other in old(buckets) ==> old(buckets)[k].lastUsed <= old(buckets)[other].lastUsed
    {
      victim := "";
      if key in buckets {
        buckets := buckets[key := buckets[key].(lastUsed := now)];
      } else {
        if |buckets| >= cfg.maxKeys {
          victim := EvictLRU();
        }
        buckets := buckets[key := Entry(NewBucket(cfg.limits), now)];
      }
    }

    method Allow(key: Key, now: Time, at: Time) returns (ok: bool, ghost victim: Key)
      modifies this
      ensures LegalVictim(cfg, old(buckets), key, victim)
      ensures buckets == Step(cfg, old(buckets), Use(key, now, at, true, victim))
      ensures ok == Answer(cfg, old(buckets), Use(key, now, at, true, victim))
      ensures key in buckets && buckets[key].lastUsed == now
      ensures key !in old(buckets) ==> (ok <==> cfg.limits.burst >= 1)
      ensures key in old(buckets) && !ok ==> buckets[key].bucket == old(buckets)[key].bucket
    {
      if key !in buckets {
        FreshKeyHasBurst(cfg, buckets, Use(key, now, at, true, ""));
      }
      victim := LimiterFor(key, now);
      var entry := buckets[key];
      ok := Tokens(cfg.limits, entry.bucket, at) >= 1.0;
      buckets := buckets[key := entry.(bucket := Spend(cfg.limits, entry.bucket, at))];
    }

    /** Whether a token is there, without taking it. */
    method Look(key: Key, now: Time, at: Time) returns (ok: bool, ghost victim: Key)
      modifies this
      ensures LegalVictim(cfg, old(buckets), key, victim)
      ensures buckets == Step(cfg, old(buckets), Use(key, now, at, false, victim))
      ensures ok == Answer(cfg, old(buckets), Use(key, now, at, false, victim))
      ensures key in buckets && buckets[key].lastUsed == now
      ensures key in old(buckets) ==> buckets[key].bucket == old(buckets)[key].bucket
    {
      victim := LimiterFor(key, now);
      ok := Tokens(cfg.limits, buckets[key].bucket, at) >= 1.0;
    }
  }
}

/** internal/mcp/failrate.go: the limiter on failed authentications, over the same cache. */
module FailRate {
  import opened TokenBuckets
  import opened KeyedRate

  const DEFAULT_FAIL_IDLE_TTL: real := 900.0
  const DEFAULT_FAIL_MAX_IPS: nat := 10000
  const DEFAULT_FAIL_LIMITS := Config(Limits(1.0, 5), DEFAULT_FAIL_IDLE_TTL, DEFAULT_FAIL_MAX_IPS)

  class IPFailRateLimiter {
    const cache: KeyedRateLimiter

    constructor (rps: real, burst: nat)
      ensures fresh(cache) && cache.buckets == map[]
      ensures cache.cfg.limits == Limits(rps, burst) && cache.cfg.idleTTL == 900.0 && cache.cfg.maxKeys == 10000
    {
      cache := new KeyedRateLimiter(Config(Limits(rps, burst), DEFAULT_FAIL_IDLE_TTL, DEFAULT_FAIL_MAX_IPS));
    }

    /** Takes a token for a failed attempt; the caller does not care whether there was one. */
    method Penalize(ip: Key, now: Time, at: Time) returns (ghost victim: Key)
      modifies cache
      ensures ip == "" ==> cache.buckets == old(cache.buckets)
      ensures ip != "" ==>
                && LegalVictim(cache.cfg, old(cache.buckets), ip, victim)
                && cache.buckets == Step(cache.cfg, old(cache.buckets), Use(ip, now, at, true, victim))
    {
      victim := "";
      if ip != "" {
        var _, v := cache.Allow(ip, now, at);
        victim := v;
      }
    }

    method Peek(ip: Key, now: Time, at: Time) returns (ok: bool, ghost victim: Key)
      modifies cache
      ensures ip == "" ==> ok && cache.buckets == old(cache.buckets)
      ensures ip != "" ==>
                && LegalVictim(cache.cfg, old(cache.buckets), ip, victim)
                && cache.buckets == Step(cache.cfg, old(cache.buckets), Use(ip, now, at, false, victim))
                && ok == Answer(cache.cfg, old(cache.buckets), Use(ip, now, at, false, victim))
    {
      ok, victim := true, "";
      if ip != "" {
        ok, victim := cache.Look(ip, now, at);
      }
    }
  }

  /** With the shipped defaults, one attempt per second and five at once, forgotten after fifteen minutes,
      sweeping is never observable below the cap. */
  lemma DefaultsAgree()
    ensures DEFAULT_FAIL_LIMITS == Config(Limits(1.0, 5), 900.0, 10000)
    ensures AlwaysAgrees(DEFAULT_FAIL_LIMITS)
  {
    SweepIsInvisibleIff(DEFAULT_FAIL_LIMITS);
  }
}
