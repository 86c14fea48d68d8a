/** The limiter of internal/mcp/keyedrate.go with its two steps apart: a call gets the bucket of its key
    under the lock, and takes a token from that bucket after the lock is released. In between the bucket
    may be evicted or swept, and a new one made for the key. */
module ConcurrentRate {
  import opened Outcomes
  import opened TokenBuckets

  type Caller = nat

  type BucketID = nat

  datatype Held = Held(bucket: BucketID, lastUsed: Time)

  /** What a call holds between its steps. */
  datatype Pointer = Pointer(key: Key, bucket: BucketID)

  /** The map of the limiter, every bucket ever made, and the calls between their steps. */
  datatype Limiter = Limiter(cache: map<Key, Held>, buckets: map<BucketID, Bucket>, calls: map<Caller, Pointer>, made: nat)

  datatype Act =
    | Get(who: Caller, key: Key, now: Time, victim: Key)
    | Take(who: Caller, now: Time)
    | Clean(now: Time)

  const EMPTY := Limiter(map[], map[], map[], 0)

  /** Making room deletes the victim, unless its key is empty. */
  function Room(cfg: Config, s: Limiter, victim: Key): map<Key, Held> {
    if |s.cache| >= cfg.maxKeys && victim != "" then s.cache - {victim} else s.cache
  }

  function GetStep(cfg: Config, s: Limiter, who: Caller, key: Key, now: Time, victim: Key): Limiter {
    if who in s.calls then s
    else if key in s.cache then
      s.(cache := s.cache[key := s.cache[key].(lastUsed := now)],
         calls := s.calls[who := Pointer(key, s.cache[key].bucket)])
    else
      s.(cache := Room(cfg, s, victim)[key := Held(s.made, now)],
         buckets := s.buckets[s.made := NewBucket(cfg.limits)],
         calls := s.calls[who := Pointer(key, s.made)],
         made := s.made + 1)
  }

  function TakeStep(cfg: Config, s: Limiter, who: Caller, now: Time): Limiter {
    if who !in s.calls || s.calls[who].bucket !in s.buckets then s
    else
      var b := s.calls[who].bucket;
      s.(buckets := s.buckets[b := Spend(cfg.limits, s.buckets[b], now)], calls := s.calls - {who})
  }

  function CleanStep(cfg: Config, s: Limiter, now: Time): Limiter {
    s.(cache := map k | k in s.cache && !(s.cache[k].lastUsed < now - cfg.idleTTL) :: s.cache[k])
  }

  function Do(cfg: Config, s: Limiter, a: Act): Limiter {
    match a
    case Get(who, key, now, victim) => GetStep(cfg, s, who, key, now, victim)
    case Take(who, now) => TakeStep(cfg, s, who, now)
    case Clean(now) => CleanStep(cfg, s, now)
  }

  function DoAll(cfg: Config, s: Limiter, acts: seq<Act>): Limiter
    decreases |acts|
  {
    if acts == [] then s else DoAll(cfg, Do(cfg, s, acts[0]), acts[1..])
  }

  function LastTime(t: Time, acts: seq<Act>): Time
    decreases |acts|
  {
    if acts == [] then t else LastTime(acts[0].now, acts[1..])
  }

  ghost predicate InOrder(t: Time, acts: seq<Act>)
    decreases |acts|
  {
    acts != [] ==> t <= acts[0].now && InOrder(acts[0].now, acts[1..])
  }

  ghost predicate Filled(cfg: Config, s: Limiter) {
    forall b :: b in s.buckets ==> b < s.made && 0.0 <= s.buckets[b].tokens <= cfg.limits.burst as real
  }

  ghost predicate Pointed(s: Limiter) {
    && (forall k :: k in s.cache ==> s.cache[k].bucket in s.buckets)
    && forall w :: w in s.calls ==> s.calls[w].bucket in s.buckets
  }

  ghost predicate OneKeyEach(cache: map<Key, Held>, calls: map<Caller, Pointer>) {
    && (forall j, k :: j in cache && k in cache && cache[j].bucket == cache[k].bucket ==> j == k)
    && forall w, k :: w in calls && k in cache && calls[w].bucket == cache[k].bucket ==> calls[w].key == k
  }

  lemma Fewer(cache: map<Key, Held>, calls: map<Caller, Pointer>, cache': map<Key, Held>, calls': map<Caller, Pointer>)
    requires OneKeyEach(cache, calls)
    requires forall k :: k in cache' ==> k in cache && cache'[k].bucket == cache[k].bucket
    requires forall w :: w in calls' ==> w in calls && calls'[w] == calls[w]
    ensures OneKeyEach(cache', calls')
  {
  }

  lemma NewPointer(cache: map<Key, Held>, calls: map<Caller, Pointer>, who: Caller, key: Key)
    requires OneKeyEach(cache, calls) && key in cache
    ensures OneKeyEach(cache, calls[who := Pointer(key, cache[key].bucket)])
  {
  }

  lemma NewHeld(cache: map<Key, Held>, calls: map<Caller, Pointer>, key: Key, h: Held)
    requires OneKeyEach(cache, calls)
    requires forall k :: k in cache ==> cache[k].bucket != h.bucket
    requires forall w :: w in calls ==> calls[w].bucket != h.bucket
    ensures OneKeyEach(cache[key := h], calls)
  {
  }

  /** A bucket belongs to one key, and holds no more than a burst. */
  ghost predicate Sound(cfg: Config, s: Limiter) {
    Filled(cfg, s) && Pointed(s) && OneKeyEach(s.cache, s.calls)
  }

  lemma SpendInRange(l: Limits, b: Bucket, t: Time)
    requires 0.0 <= b.tokens <= l.burst as real
    ensures 0.0 <= Spend(l, b, t).tokens <= l.burst as real
  {
    EarnedMonotone(l.rps, 0.0, if t < b.last then 0.0 else t - b.last);
  }

  lemma DoKeepsFilled(cfg: Config, s: Limiter, a: Act)
    requires Filled(cfg, s)
    ensures Filled(cfg, Do(cfg, s, a))
  {
    hide Spend, Room;
    if a.Take? && a.who in s.calls && s.calls[a.who].bucket in s.buckets {
      SpendInRange(cfg.limits, s.buckets[s.calls[a.who].bucket], a.now);
    }
  }

  lemma DoKeepsPointed(cfg: Config, s: Limiter, a: Act)
    requires Pointed(s)
    ensures Pointed(Do(cfg, s, a))
  {
    hide Spend;
  }

  lemma DoKeepsOneKeyEach(cfg: Config, s: Limiter, a: Act)
    requires Sound(cfg, s)
    ensures OneKeyEach(Do(cfg, s, a).cache, Do(cfg, s, a).calls)
  {
    hide Spend, OneKeyEach;
    var next := Do(cfg, s, a);
    if a.Get? && a.who !in s.calls {
      if a.key in s.cache {
        Fewer(s.cache, s.calls, next.cache, s.calls);
        NewPointer(next.cache, s.calls, a.who, a.key);
      } else {
        var room := Room(cfg, s, a.victim);
        Fewer(s.cache, s.calls, room, s.calls);
        NewHeld(room, s.calls, a.key, Held(s.made, a.now));
        NewPointer(next.cache, s.calls, a.who, a.key);
      }
    } else {
      Fewer(s.cache, s.calls, next.cache, next.calls);
    }
  }

  lemma DoKeepsSound(cfg: Config, s: Limiter, a: Act)
    requires Sound(cfg, s)
    ensures Sound(cfg, Do(cfg, s, a))
  {
    DoKeepsFilled(cfg, s, a);
    DoKeepsPointed(cfg, s, a);
    DoKeepsOneKeyEach(cfg, s, a);
    hide Do, Filled, Pointed, OneKeyEach;
  }

  // ---------- how much one key is admitted ----------

  predicate IsCurrent(s: Limiter, p: Pointer) {
    p.key in s.cache && s.cache[p.key].bucket == p.bucket
  }

  function Admits(cfg: Config, s: Limiter, key: Key, a: Act): nat {
    if a.Take? && a.who in s.calls && s.calls[a.who].key == key && s.calls[a.who].bucket in s.buckets
       && Tokens(cfg.limits, s.buckets[s.calls[a.who].bucket], a.now) >= 1.0
    then 1 else 0
  }

  function AllAdmitted(cfg: Config, s: Limiter, key: Key, acts: seq<Act>): nat
    decreases |acts|
  {
    if acts == [] then 0
    else Admits(cfg, s, key, acts[0]) + AllAdmitted(cfg, Do(cfg, s, acts[0]), key, acts[1..])
  }

  /** A token taken from a bucket that is no longer the key's. */
  function Strays(s: Limiter, key: Key, a: Act): nat {
    if a.Take? && a.who in s.calls && s.calls[a.who].key == key && !IsCurrent(s, s.calls[a.who]) then 1 else 0
  }

  function AllStrays(cfg: Config, s: Limiter, key: Key, acts: seq<Act>): nat
    decreases |acts|
  {
    if acts == [] then 0 else Strays(s, key, acts[0]) + AllStrays(cfg, Do(cfg, s, acts[0]), key, acts[1..])
  }

  /** The key is dropped, by eviction or by the sweep. */
  function Drops(cfg: Config, s: Limiter, key: Key, a: Act): nat {
    if key in s.cache && key !in Do(cfg, s, a).cache then 1 else 0
  }

  function AllDrops(cfg: Config, s: Limiter, key: Key, acts: seq<Act>): nat
    decreases |acts|
  {
    if acts == [] then 0 else Drops(cfg, s, key, acts[0]) + AllDrops(cfg, Do(cfg, s, acts[0]), key, acts[1..])
  }

  function BucketNow(cfg: Config, s: Limiter, key: Key): Bucket {
    if key in s.cache && s.cache[key].bucket in s.buckets then s.buckets[s.cache[key].bucket] else NewBucket(cfg.limits)
  }

  function CreditNow(cfg: Config, s: Limiter, key: Key, t: Time): real {
    Tokens(cfg.limits, BucketNow(cfg, s, key), t)
  }

  lemma CreditNowInRange(cfg: Config, s: Limiter, key: Key, t: Time)
    requires Sound(cfg, s)
    ensures 0.0 <= CreditNow(cfg, s, key, t) <= cfg.limits.burst as real
  {
    var b := BucketNow(cfg, s, key);
    EarnedMonotone(cfg.limits.rps, 0.0, if t < b.last then 0.0 else t - b.last);
  }

  /** A step that takes no token leaves the key its bucket, or a full one. */
  lemma KeepsBucket(cfg: Config, s: Limiter, a: Act, key: Key)
    requires Sound(cfg, s) && !a.Take?
    ensures var next := Do(cfg, s, a);
            || BucketNow(cfg, next, key) == BucketNow(cfg, s, key)
            || (Drops(cfg, s, key, a) == 1 && BucketNow(cfg, next, key) == NewBucket(cfg.limits))
  {
    hide NewBucket, OneKeyEach;
  }

  /** A token taken from the key's bucket is one of its credit; any other is a stray, or another key's. */
  lemma TakesFromBucket(cfg: Config, s: Limiter, a: Act, key: Key)
    requires Sound(cfg, s) && a.Take?
    ensures var next, b := Do(cfg, s, a), BucketNow(cfg, s, key);
            && Drops(cfg, s, key, a) == 0
            && if a.who in s.calls && s.calls[a.who].key == key && IsCurrent(s, s.calls[a.who])
               then BucketNow(cfg, next, key) == Spend(cfg.limits, b, a.now)
                    && Admits(cfg, s, key, a) == if Tokens(cfg.limits, b, a.now) >= 1.0 then 1 else 0
               else BucketNow(cfg, next, key) == b && Admits(cfg, s, key, a) <= Strays(s, key, a)
  {
    hide NewBucket, Spend, Tokens;
  }

  lemma AdmitStep(cfg: Config, s: Limiter, t: Time, a: Act, key: Key)
    requires Sound(cfg, s) && t <= a.now
    ensures Admits(cfg, s, key, a) as real + CreditNow(cfg, Do(cfg, s, a), key, a.now)
            <= CreditNow(cfg, s, key, t) + Earned(cfg.limits.rps, a.now - t)
               + Bursts(cfg.limits, Drops(cfg, s, key, a)) + Strays(s, key, a) as real
  {
    var b := BucketNow(cfg, s, key);
    TokensOverTime(cfg.limits, b, t, a.now);
    CreditNowInRange(cfg, s, key, a.now);
    NewBucketIsFull(cfg.limits, a.now);
    assert Bursts(cfg.limits, 1) == cfg.limits.burst as real && Bursts(cfg.limits, 0) == 0.0;
    if a.Take? {
      TakesFromBucket(cfg, s, a, key);
      if Tokens(cfg.limits, b, a.now) >= 1.0 {
        SpendTakesOne(cfg.limits, b, a.now);
      }
      hide Do, BucketNow, Drops, Tokens, Earned, Sound, Admits, IsCurrent;
    } else {
      KeepsBucket(cfg, s, a, key);
      hide Do, BucketNow, Drops, Tokens, Earned, Sound, IsCurrent, Spend;
    }
  }

  lemma NewBucketIsFull(l: Limits, t: Time)
    ensures Tokens(l, NewBucket(l), t) == l.burst as real
  {
    EarnedMonotone(l.rps, 0.0, if t < 0.0 then 0.0 else t);
  }

  lemma {:induction false} AdmitPotential(cfg: Config, s: Limiter, t: Time, acts: seq<Act>, key: Key)
    requires Sound(cfg, s) && InOrder(t, acts)
    ensures AllAdmitted(cfg, s, key, acts) as real + CreditNow(cfg, DoAll(cfg, s, acts), key, LastTime(t, acts))
            <= CreditNow(cfg, s, key, t) + Earned(cfg.limits.rps, LastTime(t, acts) - t)
               + Bursts(cfg.limits, AllDrops(cfg, s, key, acts)) + AllStrays(cfg, s, key, acts) as real
    ensures Sound(cfg, DoAll(cfg, s, acts))
    decreases |acts|
  {
    hide Earned, Tokens, Do, Sound, Admits, Strays, Drops, CreditNow;
    EarnedAdds(cfg.limits.rps, 0.0, 0.0);
    if acts == [] {
      assert LastTime(t, acts) - t == 0.0;
    } else {
      var a := acts[0];
      var next := Do(cfg, s, a);
      DoKeepsSound(cfg, s, a);
      AdmitStep(cfg, s, t, a, key);
      AdmitPotential(cfg, next, a.now, acts[1..], key);
      var end := LastTime(a.now, acts[1..]);
      EarnedAdds(cfg.limits.rps, a.now - t, end - a.now);
      assert a.now - t + (end - a.now) == end - t;
      BurstsAdd(cfg.limits, Drops(cfg, s, key, a), AllDrops(cfg, next, key, acts[1..]));
    }
  }

  // ---------- how many tokens come from old buckets ----------

  function CallsOf(s: Limiter, key: Key): set<Caller> {
    set w | w in s.calls && s.calls[w].key == key
  }

  /** Calls that hold a bucket which is no longer their key's. */
  function StrayCalls(s: Limiter, key: Key): set<Caller> {
    set w | w in s.calls && s.calls[w].key == key && !IsCurrent(s, s.calls[w])
  }

  /** At most k calls of the key are between their two steps, at every point of the run. */
  ghost predicate AtMost(cfg: Config, s: Limiter, acts: seq<Act>, key: Key, k: nat)
    decreases |acts|
  {
    && |CallsOf(s, key)| <= k
    && (acts != [] ==> AtMost(cfg, Do(cfg, s, acts[0]), acts[1..], key, k))
  }

  /** A call becomes a stray only when its key is dropped. */
  lemma NewStrayIsDropped(cfg: Config, s: Limiter, a: Act, key: Key, w: Caller)
    requires Sound(cfg, s) && w in StrayCalls(Do(cfg, s, a), key) && w !in StrayCalls(s, key)
    ensures Drops(cfg, s, key, a) == 1
  {
    hide Spend, OneKeyEach, Filled, Pointed, NewBucket;
  }

  lemma TakenStrayIsGone(cfg: Config, s: Limiter, a: Act, key: Key)
    requires Pointed(s) && Strays(s, key, a) == 1
    ensures Drops(cfg, s, key, a) == 0
    ensures a.who in StrayCalls(s, key) && a.who !in StrayCalls(Do(cfg, s, a), key)
  {
    hide Spend;
  }

  lemma StrayStep(cfg: Config, s: Limiter, a: Act, key: Key, k: nat)
    requires Sound(cfg, s) && |CallsOf(Do(cfg, s, a), key)| <= k
    ensures Strays(s, key, a) + |StrayCalls(Do(cfg, s, a), key)|
            <= |StrayCalls(s, key)| + if Drops(cfg, s, key, a) == 1 then k else 0
  {
    hide Do, Filled, Pointed, OneKeyEach, StrayCalls, CallsOf, Strays, Drops;
    var next := Do(cfg, s, a);
    StrayCount(s, key, a);
    if Drops(cfg, s, key, a) == 1 {
      StraysAreCalls(next, key);
      if Strays(s, key, a) == 1 {
        TakenStrayIsGone(cfg, s, a, key);
      }
    } else {
      forall w | w in StrayCalls(next, key)
        ensures w in StrayCalls(s, key)
      {
        if w !in StrayCalls(s, key) {
          NewStrayIsDropped(cfg, s, a, key, w);
        }
      }
      if Strays(s, key, a) == 1 {
        TakenStrayIsGone(cfg, s, a, key);
        SubsetSize(StrayCalls(next, key), StrayCalls(s, key) - {a.who});
      } else {
        SubsetSize(StrayCalls(next, key), StrayCalls(s, key));
      }
    }
  }

  lemma StrayCount(s: Limiter, key: Key, a: Act)
    ensures Strays(s, key, a) <= 1 && (Strays(s, key, a) == 1 ==> a.Take?)
  {
  }

  lemma {:induction false} StraysAreFew(cfg: Config, s: Limiter, acts: seq<Act>, key: Key, k: nat)
    requires Sound(cfg, s) && AtMost(cfg, s, acts, key, k)
    ensures AllStrays(cfg, s, key, acts) <= |StrayCalls(s, key)| + k * AllDrops(cfg, s, key, acts)
    decreases |acts|
  {
    hide Sound, Do, Strays, StrayCalls, CallsOf;
    if acts != [] {
      var next, d := Do(cfg, s, acts[0]), Drops(cfg, s, key, acts[0]);
      DoKeepsSound(cfg, s, acts[0]);
      StrayStep(cfg, s, acts[0], key, k);
      StraysAreFew(cfg, next, acts[1..], key, k);
      Distribute(k, d, AllDrops(cfg, next, key, acts[1..]));
    }
  }

  lemma Distribute(k: nat, d: nat, n: nat)
    requires d <= 1
    ensures k * (d + n) == (if d == 1 then k else 0) + k * n
  {
  }

  lemma {:induction false} SplitRun(cfg: Config, s: Limiter, t: Time, a: seq<Act>, b: seq<Act>, key: Key, k: nat)
    ensures InOrder(t, a + b) ==> InOrder(t, a) && InOrder(LastTime(t, a), b)
    ensures AtMost(cfg, s, a + b, key, k) ==> AtMost(cfg, s, a, key, k) && AtMost(cfg, DoAll(cfg, s, a), b, key, k)
    decreases |a|
  {
    hide Do, CallsOf;
    if a == [] {
      assert a + b == b;
      if AtMost(cfg, s, b, key, k) {
        assert |CallsOf(s, key)| <= k;
      }
    } else {
      assert (a + b)[0] == a[0] && (a + b)[1..] == a[1..] + b;
      SplitRun(cfg, Do(cfg, s, a[0]), a[0].now, a[1..], b, key, k);
    }
  }

  lemma StretchAdmits(cfg: Config, t: Time, before: seq<Act>, stretch: seq<Act>, key: Key, k: nat)
    requires InOrder(t, before + stretch) && AtMost(cfg, EMPTY, before + stretch, key, k)
    ensures var s, from := DoAll(cfg, EMPTY, before), LastTime(t, before);
            var drops := AllDrops(cfg, s, key, stretch);
            && AllAdmitted(cfg, s, key, stretch) as real
               <= Bursts(cfg.limits, 1 + drops) + Earned(cfg.limits.rps, LastTime(from, stretch) - from)
                  + (k * drops + |StrayCalls(s, key)|) as real
            && |StrayCalls(s, key)| <= k
  {
    hide Do, Earned, Tokens, StrayCalls, CallsOf;
    SplitRun(cfg, EMPTY, t, before, stretch, key, k);
    AdmitPotential(cfg, EMPTY, t, before, key);
    var s, from := DoAll(cfg, EMPTY, before), LastTime(t, before);
    AdmitPotential(cfg, s, from, stretch, key);
    StraysAreFew(cfg, s, stretch, key, k);
    CreditNowInRange(cfg, s, key, from);
    CreditNowInRange(cfg, DoAll(cfg, s, stretch), key, LastTime(from, stretch));
    StraysAreCalls(s, key);
    hide Sound;
  }

  /** With at most k calls of a key between getting its bucket and taking from it: over any stretch of any
      run the key is admitted at most a burst, what the rate earns, and, for each time it was dropped, one
      more burst and k more tokens from the bucket that was dropped; and k once for calls that already
      held an old bucket when the stretch began. */
  lemma TwoStepBound(cfg: Config, t: Time, before: seq<Act>, stretch: seq<Act>, key: Key, k: nat)
    requires InOrder(t, before + stretch) && AtMost(cfg, EMPTY, before + stretch, key, k)
    ensures var s, from := DoAll(cfg, EMPTY, before), LastTime(t, before);
            var drops := AllDrops(cfg, s, key, stretch);
            AllAdmitted(cfg, s, key, stretch) as real
            <= (1 + drops) as real * cfg.limits.burst as real
               + (if cfg.limits.rps < 0.0 then 0.0 else cfg.limits.rps) * (LastTime(from, stretch) - from)
               + (k * drops + |StrayCalls(s, key)|) as real
    ensures |StrayCalls(DoAll(cfg, EMPTY, before), key)| <= k
  {
    hide *;
    var s, from := DoAll(cfg, EMPTY, before), LastTime(t, before);
    StretchAdmits(cfg, t, before, stretch, key, k);
    WrittenOut(cfg.limits, 1 + AllDrops(cfg, s, key, stretch), LastTime(from, stretch) - from);
  }

  lemma StraysAreCalls(s: Limiter, key: Key)
    ensures |StrayCalls(s, key)| <= |CallsOf(s, key)|
  {
    SubsetSize(StrayCalls(s, key), CallsOf(s, key));
  }

  // ---------- the same limiter ----------

  /** The cache as TokenBuckets sees it. */
  function View(cache: map<Key, Held>, buckets: map<BucketID, Bucket>): Cache {
    map k | k in cache && cache[k].bucket in buckets :: Entry(buckets[cache[k].bucket], cache[k].lastUsed)
  }

  ghost predicate AllThere(cache: map<Key, Held>, buckets: map<BucketID, Bucket>) {
    forall k :: k in cache ==> cache[k].bucket in buckets
  }

  lemma ViewSize(cache: map<Key, Held>, buckets: map<BucketID, Bucket>)
    requires AllThere(cache, buckets)
    ensures View(cache, buckets).Keys == cache.Keys && |View(cache, buckets)| == |cache|
  {
    assert View(cache, buckets).Keys == cache.Keys;
    assert |View(cache, buckets)| == |View(cache, buckets).Keys|;
  }

  lemma ViewWithout(cache: map<Key, Held>, buckets: map<BucketID, Bucket>, victim: Key)
    ensures View(cache - {victim}, buckets) == View(cache, buckets) - {victim}
  {
  }

  lemma ViewWith(cache: map<Key, Held>, buckets: map<BucketID, Bucket>, key: Key, h: Held, b: Bucket)
    requires AllThere(cache, buckets) && h.bucket !in buckets
    ensures View(cache[key := h], buckets[h.bucket := b]) == View(cache, buckets)[key := Entry(b, h.lastUsed)]
  {
    var next, seen := View(cache[key := h], buckets[h.bucket := b]), View(cache, buckets)[key := Entry(b, h.lastUsed)];
    assert next.Keys == cache.Keys + {key} == seen.Keys;
    assert forall k :: k in next ==> next[k] == seen[k];
  }

  lemma ViewTouched(cache: map<Key, Held>, buckets: map<BucketID, Bucket>, key: Key, now: Time)
    requires key in cache && AllThere(cache, buckets)
    ensures View(cache[key := cache[key].(lastUsed := now)], buckets)
            == View(cache, buckets)[key := Entry(buckets[cache[key].bucket], now)]
  {
  }

  lemma ViewSpent(cache: map<Key, Held>, buckets: map<BucketID, Bucket>, key: Key, b: Bucket)
    requires key in cache && AllThere(cache, buckets)
    requires forall k :: k in cache && cache[k].bucket == cache[key].bucket ==> k == key
    ensures View(cache, buckets[cache[key].bucket := b]) == View(cache, buckets)[key := Entry(b, cache[key].lastUsed)]
  {
  }

  lemma GetNewIsTouch(cfg: Config, s: Limiter, who: Caller, key: Key, now: Time, victim: Key)
    requires Sound(cfg, s) && who !in s.calls && key !in s.cache
    ensures var next := GetStep(cfg, s, who, key, now, victim);
            View(next.cache, next.buckets) == Touched(cfg, View(s.cache, s.buckets), key, now, victim)
  {
    hide View, NewBucket, OneKeyEach;
    ViewSize(s.cache, s.buckets);
    ViewWithout(s.cache, s.buckets, victim);
    var room := Room(cfg, s, victim);
    ViewWith(room, s.buckets, key, Held(s.made, now), NewBucket(cfg.limits));
  }

  lemma GetKnownIsTouch(cfg: Config, s: Limiter, who: Caller, key: Key, now: Time, victim: Key)
    requires Sound(cfg, s) && who !in s.calls && key in s.cache
    ensures var next := GetStep(cfg, s, who, key, now, victim);
            View(next.cache, next.buckets) == Touched(cfg, View(s.cache, s.buckets), key, now, victim)
  {
    ViewSize(s.cache, s.buckets);
    ViewTouched(s.cache, s.buckets, key, now);
  }

  lemma GetPoints(cfg: Config, s: Limiter, who: Caller, key: Key, now: Time, victim: Key)
    requires who !in s.calls
    ensures var next := GetStep(cfg, s, who, key, now, victim);
            key in next.cache && next.calls == s.calls[who := Pointer(key, next.cache[key].bucket)]
  {
  }

  lemma TakeIsSpend(cfg: Config, s: Limiter, who: Caller, at: Time)
    requires Sound(cfg, s) && who in s.calls && IsCurrent(s, s.calls[who])
    ensures var key, seen, next := s.calls[who].key, View(s.cache, s.buckets), TakeStep(cfg, s, who, at);
            && key in seen
            && View(next.cache, next.buckets) == seen[key := seen[key].(bucket := Spend(cfg.limits, seen[key].bucket, at))]
            && next.calls == s.calls - {who}
            && Admits(cfg, s, key, Take(who, at)) == if Tokens(cfg.limits, seen[key].bucket, at) >= 1.0 then 1 else 0
  {
    var key := s.calls[who].key;
    ViewSpent(s.cache, s.buckets, key, Spend(cfg.limits, s.buckets[s.cache[key].bucket], at));
    hide Spend, Tokens;
  }

  lemma TouchKeepsBucket(cfg: Config, c: Cache, key: Key, now: Time, victim: Key)
    ensures var touched := Touched(cfg, c, key, now, victim);
            key in touched && touched[key].bucket == BucketOf(cfg, c, key)
  {
    hide NewBucket;
  }

  /** A call with no other act in between its steps is one event of TokenBuckets. */
  lemma TogetherIsOneEvent(cfg: Config, s: Limiter, who: Caller, key: Key, now: Time, at: Time, victim: Key)
    requires Sound(cfg, s) && who !in s.calls
    ensures var e, got := Use(key, now, at, true, victim), Do(cfg, s, Get(who, key, now, victim));
            var next, seen := Do(cfg, got, Take(who, at)), View(s.cache, s.buckets);
            && View(next.cache, next.buckets) == Step(cfg, seen, e)
            && next.calls == s.calls
            && Admits(cfg, got, key, Take(who, at)) == if Answer(cfg, seen, e) then 1 else 0
  {
    hide Spend, Tokens, BucketOf, Touched, Admits, View, GetStep, TakeStep, Sound;
    var got := Do(cfg, s, Get(who, key, now, victim));
    GetPoints(cfg, s, who, key, now, victim);
    if key in s.cache {
      GetKnownIsTouch(cfg, s, who, key, now, victim);
    } else {
      GetNewIsTouch(cfg, s, who, key, now, victim);
    }
    DoKeepsSound(cfg, s, Get(who, key, now, victim));
    TakeIsSpend(cfg, got, who, at);
    TouchKeepsBucket(cfg, View(s.cache, s.buckets), key, now, victim);
    assert s.calls[who := Pointer(key, got.cache[key].bucket)] - {who} == s.calls;
  }

  lemma CleanIsSweep(cfg: Config, s: Limiter, now: Time)
    ensures View(Do(cfg, s, Clean(now)).cache, s.buckets) == Step(cfg, View(s.cache, s.buckets), Sweep(now))
  {
  }
}
