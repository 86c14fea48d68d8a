/** The token bucket of golang.org/x/time/rate as the limiters use it, and the bounded cache of
    per-key buckets kept by internal/mcp/keyedrate.go and internal/mcp/failrate.go, as values:
    one step of the cache is one event, and a run is a sequence of events. */
module TokenBuckets {
  import opened Outcomes

  /** Seconds. */
  type Time = real

  type Key = string

  datatype Limits = Limits(rps: real, burst: nat)

  datatype Bucket = Bucket(tokens: real, last: Time)

  /** Tokens earned over a span of time; a non-positive rate earns nothing. */
  function Earned(rps: real, elapsed: real): real {
    if rps <= 0.0 then 0.0 else rps * elapsed
  }

  function NewBucket(l: Limits): Bucket {
    Bucket(l.burst as real, 0.0)
  }

  /** The tokens available at time t; a clock that went back counts as no time elapsed. */
  function Tokens(l: Limits, b: Bucket, t: Time): real {
    var have := b.tokens + Earned(l.rps, if t < b.last then 0.0 else t - b.last);
    if have > l.burst as real then l.burst as real else have
  }

  function Spend(l: Limits, b: Bucket, t: Time): Bucket {
    if Tokens(l, b, t) >= 1.0 then Bucket(Tokens(l, b, t) - 1.0, t) else b
  }

  predicate Full(l: Limits, b: Bucket, t: Time) {
    Tokens(l, b, t) == l.burst as real
  }

  /** What a span earns is the rate times the span, for a rate that is not negative. */
  lemma EarnedIsProduct(rps: real, elapsed: real)
    ensures Earned(rps, elapsed) == (if rps < 0.0 then 0.0 else rps) * elapsed
  {
    if rps <= 0.0 {
      assert 0.0 * elapsed == 0.0;
    }
  }

  lemma EarnedAdds(rps: real, a: real, b: real)
    ensures Earned(rps, a + b) == Earned(rps, a) + Earned(rps, b)
  {
  }

  lemma EarnedMonotone(rps: real, a: real, b: real)
    requires a <= b
    ensures Earned(rps, a) <= Earned(rps, b)
  {
    if rps > 0.0 {
      ProductIsNonNegative(rps, b - a);
      assert rps * (b - a) == rps * b - rps * a;
    }
  }

  lemma ProductIsNonNegative(x: real, y: real)
    requires x >= 0.0 && y >= 0.0
    ensures x * y >= 0.0
  {
  }

  /** Waiting never costs tokens, and gains at most what the rate earns meanwhile. */
  lemma TokensOverTime(l: Limits, b: Bucket, t: Time, u: Time)
    requires t <= u
    ensures Tokens(l, b, t) <= Tokens(l, b, u) <= Tokens(l, b, t) + Earned(l.rps, u - t)
  {
    var et := if t < b.last then 0.0 else t - b.last;
    var eu := if u < b.last then 0.0 else u - b.last;
    EarnedMonotone(l.rps, et, eu);
    EarnedMonotone(l.rps, eu - et, u - t);
    EarnedMonotone(l.rps, 0.0, u - t);
  }

  /** Spending a token takes exactly one of those available, now and never below zero. */
  lemma SpendTakesOne(l: Limits, b: Bucket, t: Time)
    requires Tokens(l, b, t) >= 1.0
    ensures Tokens(l, Spend(l, b, t), t) == Tokens(l, b, t) - 1.0
  {
    EarnedAdds(l.rps, 0.0, 0.0);
  }

  // ---------- the bounded cache ----------

  datatype Entry = Entry(bucket: Bucket, lastUsed: Time)

  type Cache = map<Key, Entry>

  datatype Config = Config(limits: Limits, idleTTL: real, maxKeys: nat)

  /** One critical section of a limiter. Use reads the clock twice: once for the entry (now), once
      for the bucket (at). It consumes a token for allow and Penalize, and only looks for peek.
      victim is the key that the map iteration settles on when room has to be made. */
  datatype Event =
    | Use(key: Key, now: Time, at: Time, consume: bool, victim: Key)
    | Sweep(at: Time)

  function BucketOf(cfg: Config, c: Cache, key: Key): Bucket {
    if key in c then c[key].bucket else NewBucket(cfg.limits)
  }

  predicate NeedsRoom(cfg: Config, c: Cache, key: Key) {
    key !in c && |c| >= cfg.maxKeys
  }

  ghost predicate IsOldest(c: Cache, victim: Key) {
    victim in c && forall k :: k in c ==> c[victim].lastUsed <= c[k].lastUsed
  }

  ghost predicate LegalVictim(cfg: Config, c: Cache, key: Key, victim: Key) {
    NeedsRoom(cfg, c, key) ==> if c == map[] then victim == "" else IsOldest(c, victim)
  }

  /** The code marks "no victim" by the empty string, so an entry whose key is "" is never evicted. */
  function Evicted(c: Cache, victim: Key): Cache {
    if victim == "" then c else c - {victim}
  }

  function Touched(cfg: Config, c: Cache, key: Key, now: Time, victim: Key): Cache {
    if key in c then c[key := c[key].(lastUsed := now)]
    else
      var room := if |c| >= cfg.maxKeys then Evicted(c, victim) else c;
      room[key := Entry(NewBucket(cfg.limits), now)]
  }

  function Kept(c: Cache, cutoff: Time): Cache {
    map k | k in c && !(c[k].lastUsed < cutoff) :: c[k]
  }

  /** Whether a Use finds a whole token. */
  predicate Answer(cfg: Config, c: Cache, e: Event)
    requires e.Use?
  {
    Tokens(cfg.limits, BucketOf(cfg, c, e.key), e.at) >= 1.0
  }

  function Step(cfg: Config, c: Cache, e: Event): Cache {
    match e
    case Use(key, now, at, consume, victim) =>
      var touched := Touched(cfg, c, key, now, victim);
      if consume then touched[key := touched[key].(bucket := Spend(cfg.limits, touched[key].bucket, at))]
      else touched
    case Sweep(at) => Kept(c, at - cfg.idleTTL)
  }

  function Final(cfg: Config, c: Cache, es: seq<Event>): Cache
    decreases es
  {
    if es == [] then c else Final(cfg, Step(cfg, c, es[0]), es[1..])
  }

  function EndTime(t: Time, es: seq<Event>): Time
    decreases es
  {
    if es == [] then t else EndTime(es[0].at, es[1..])
  }

  /** A run from time t: the clock never goes back, the two clock reads of a Use are at most skew
      apart, and every eviction takes a least recently used key. */
  ghost predicate ValidRun(cfg: Config, skew: real, c: Cache, t: Time, es: seq<Event>)
    decreases es
  {
    es != [] ==>
      && t <= es[0].at
      && (es[0].Use? ==>
            && t <= es[0].now <= es[0].at <= es[0].now + skew
            && LegalVictim(cfg, c, es[0].key, es[0].victim))
      && ValidRun(cfg, skew, Step(cfg, c, es[0]), es[0].at, es[1..])
  }

  ghost predicate NeverFull(cfg: Config, c: Cache, es: seq<Event>)
    decreases es
  {
    es != [] ==>
      && (es[0].Use? ==> !NeedsRoom(cfg, c, es[0].key))
      && NeverFull(cfg, Step(cfg, c, es[0]), es[1..])
  }

  /** What the callers see: the answer of every Use, in order. */
  function Answers(cfg: Config, c: Cache, es: seq<Event>): seq<bool>
    decreases es
  {
    if es == [] then []
    else (if es[0].Use? then [Answer(cfg, c, es[0])] else []) + Answers(cfg, Step(cfg, c, es[0]), es[1..])
  }

  ghost predicate SaneEntry(l: Limits, skew: real, e: Entry) {
    && 0.0 <= e.bucket.tokens <= l.burst as real
    && (e.bucket.tokens == l.burst as real || e.bucket.last <= e.lastUsed + skew)
  }

  ghost predicate Sane(cfg: Config, skew: real, c: Cache) {
    forall k :: k in c ==> SaneEntry(cfg.limits, skew, c[k])
  }

  lemma SaneStep(cfg: Config, skew: real, c: Cache, e: Event)
    requires Sane(cfg, skew, c)
    requires e.Use? ==> e.now <= e.at <= e.now + skew
    requires e.Use? && e.key in c ==> c[e.key].lastUsed <= e.now
    ensures Sane(cfg, skew, Step(cfg, c, e))
  {
    if e.Use? {
      var b := BucketOf(cfg, c, e.key);
      EarnedMonotone(cfg.limits.rps, 0.0, if e.at < b.last then 0.0 else e.at - b.last);
    }
  }

  ghost predicate UsedBy(c: Cache, t: Time) {
    forall k :: k in c ==> c[k].lastUsed <= t
  }

  lemma KeepsOrder(cfg: Config, skew: real, c: Cache, t: Time, e: Event)
    requires Sane(cfg, skew, c) && UsedBy(c, t) && t <= e.at
    requires e.Use? ==> t <= e.now <= e.at <= e.now + skew
    ensures Sane(cfg, skew, Step(cfg, c, e)) && UsedBy(Step(cfg, c, e), e.at)
  {
    SaneStep(cfg, skew, c, e);
  }

  /** An entry idle for longer than a TTL that refills a whole burst holds a full bucket. */
  lemma SweptWasFull(cfg: Config, skew: real, e: Entry, t: Time)
    requires SaneEntry(cfg.limits, skew, e)
    requires Earned(cfg.limits.rps, cfg.idleTTL - skew) >= cfg.limits.burst as real
    requires e.lastUsed < t - cfg.idleTTL
    ensures Full(cfg.limits, e.bucket, t)
  {
    var idle := if t < e.bucket.last then 0.0 else t - e.bucket.last;
    EarnedMonotone(cfg.limits.rps, 0.0, idle);
    if e.bucket.tokens < cfg.limits.burst as real {
      assert t - e.bucket.last > cfg.idleTTL - skew;
      EarnedMonotone(cfg.limits.rps, cfg.idleTTL - skew, t - e.bucket.last);
      if t < e.bucket.last {
        EarnedMonotone(cfg.limits.rps, t - e.bucket.last, 0.0);
      }
    }
  }

  // ---------- the limiter it stands for ----------

  /** The limiter with no bound: one bucket for every key, forever. */
  type Reference = map<Key, Bucket>

  function RefBucket(cfg: Config, r: Reference, key: Key): Bucket {
    if key in r then r[key] else NewBucket(cfg.limits)
  }

  function RefStep(cfg: Config, r: Reference, e: Event): Reference {
    if e.Use? && e.consume then r[e.key := Spend(cfg.limits, RefBucket(cfg, r, e.key), e.at)] else r
  }

  function RefAnswers(cfg: Config, r: Reference, es: seq<Event>): seq<bool>
    decreases es
  {
    if es == [] then []
    else
      (if es[0].Use? then [Tokens(cfg.limits, RefBucket(cfg, r, es[0].key), es[0].at) >= 1.0] else [])
      + RefAnswers(cfg, RefStep(cfg, r, es[0]), es[1..])
  }

  /** Two buckets nobody can tell apart from time t on. */
  predicate Alike(l: Limits, a: Bucket, b: Bucket, t: Time) {
    a == b || (Full(l, a, t) && Full(l, b, t))
  }

  lemma AlikeLater(l: Limits, a: Bucket, b: Bucket, t: Time, u: Time)
    requires Alike(l, a, b, t) && t <= u
    ensures Alike(l, a, b, u) && Tokens(l, a, u) == Tokens(l, b, u)
  {
    TokensOverTime(l, a, t, u);
    TokensOverTime(l, b, t, u);
  }

  ghost predicate Simulates(cfg: Config, c: Cache, r: Reference, t: Time) {
    forall k :: Alike(cfg.limits, BucketOf(cfg, c, k), RefBucket(cfg, r, k), t)
  }

  lemma SimulationStep(cfg: Config, skew: real, c: Cache, r: Reference, t: Time, e: Event)
    requires Simulates(cfg, c, r, t) && Sane(cfg, skew, c) && t <= e.at
    requires Earned(cfg.limits.rps, cfg.idleTTL - skew) >= cfg.limits.burst as real
    requires e.Use? ==> !NeedsRoom(cfg, c, e.key)
    ensures Simulates(cfg, Step(cfg, c, e), RefStep(cfg, r, e), e.at)
  {
    var c', r' := Step(cfg, c, e), RefStep(cfg, r, e);
    forall k ensures Alike(cfg.limits, BucketOf(cfg, c', k), RefBucket(cfg, r', k), e.at) {
      AlikeLater(cfg.limits, BucketOf(cfg, c, k), RefBucket(cfg, r, k), t, e.at);
      if e.Sweep? && k in c && k !in c' {
        SweptWasFull(cfg, skew, c[k], e.at);
        EarnedMonotone(cfg.limits.rps, 0.0, if e.at < 0.0 then 0.0 else e.at);
        assert Full(cfg.limits, NewBucket(cfg.limits), e.at);
      }
    }
  }

  /** While no key has to be evicted, sweeping, peeking and recreating buckets cannot be observed:
      every answer is the one the unbounded limiter gives. */
  lemma {:induction false} SweepIsInvisible(
    cfg: Config, skew: real, c: Cache, r: Reference, t: Time, es: seq<Event>)
    requires Simulates(cfg, c, r, t) && Sane(cfg, skew, c) && UsedBy(c, t)
    requires (if cfg.limits.rps < 0.0 then 0.0 else cfg.limits.rps) * (cfg.idleTTL - skew)
             >= cfg.limits.burst as real
    requires ValidRun(cfg, skew, c, t, es) && NeverFull(cfg, c, es)
    ensures Answers(cfg, c, es) == RefAnswers(cfg, r, es)
    decreases es
  {
    EarnedIsProduct(cfg.limits.rps, cfg.idleTTL - skew);
    if es != [] {
      var e := es[0];
      if e.Use? {
        AlikeLater(cfg.limits, BucketOf(cfg, c, e.key), RefBucket(cfg, r, e.key), t, e.at);
      }
      KeepsOrder(cfg, skew, c, t, e);
      SimulationStep(cfg, skew, c, r, t, e);
      SweepIsInvisible(cfg, skew, Step(cfg, c, e), RefStep(cfg, r, e), e.at, es[1..]);
    }
  }

  // ---------- and only then ----------

  ghost predicate AlwaysAgrees(cfg: Config) {
    forall t, es :: ValidRun(cfg, 0.0, map[], t, es) && NeverFull(cfg, map[], es) ==>
                      Answers(cfg, map[], es) == RefAnswers(cfg, map[], es)
  }

  function RefFinal(cfg: Config, r: Reference, es: seq<Event>): Reference
    decreases es
  {
    if es == [] then r else RefFinal(cfg, RefStep(cfg, r, es[0]), es[1..])
  }

  /** Runs compose. */
  lemma {:induction false} RunAppend(
    cfg: Config, skew: real, c: Cache, t: Time, a: seq<Event>, b: seq<Event>)
    ensures ValidRun(cfg, skew, c, t, a + b) <==>
              ValidRun(cfg, skew, c, t, a) && ValidRun(cfg, skew, Final(cfg, c, a), EndTime(t, a), b)
    ensures NeverFull(cfg, c, a + b) <==> NeverFull(cfg, c, a) && NeverFull(cfg, Final(cfg, c, a), b)
    decreases a
  {
    if a == [] {
      assert a + b == b;
    } else {
      assert (a + b)[0] == a[0] && (a + b)[1..] == a[1..] + b;
      RunAppend(cfg, skew, Step(cfg, c, a[0]), a[0].at, a[1..], b);
    }
  }

  lemma {:induction false} AnswersAppend(cfg: Config, c: Cache, a: seq<Event>, b: seq<Event>)
    ensures Answers(cfg, c, a + b) == Answers(cfg, c, a) + Answers(cfg, Final(cfg, c, a), b)
    decreases a
  {
    if a == [] {
      assert a + b == b;
    } else {
      hide Step, Answer;
      assert (a + b)[0] == a[0] && (a + b)[1..] == a[1..] + b;
      AnswersAppend(cfg, Step(cfg, c, a[0]), a[1..], b);
    }
  }

  lemma {:induction false} RefAnswersAppend(cfg: Config, r: Reference, a: seq<Event>, b: seq<Event>)
    ensures RefAnswers(cfg, r, a + b) == RefAnswers(cfg, r, a) + RefAnswers(cfg, RefFinal(cfg, r, a), b)
    decreases a
  {
    if a == [] {
      assert a + b == b;
    } else {
      hide RefStep, RefBucket, Tokens;
      assert (a + b)[0] == a[0] && (a + b)[1..] == a[1..] + b;
      RefAnswersAppend(cfg, RefStep(cfg, r, a[0]), a[1..], b);
    }
  }

  function Burst(n: nat, at: Time): seq<Event> {
    if n == 0 then [] else [Use("k", at, at, true, "")] + Burst(n - 1, at)
  }

  ghost predicate OnlyK(c: Cache, t: Time) {
    c == map[] || (c.Keys == {"k"} && c["k"].lastUsed <= t)
  }

  /** As many calls as there are tokens, at one instant: all are allowed. */
  lemma {:induction false} CacheBurst(cfg: Config, c: Cache, t: Time, at: Time, n: nat)
    requires OnlyK(c, at) && t <= at && cfg.maxKeys >= 1
    requires Tokens(cfg.limits, BucketOf(cfg, c, "k"), at) >= n as real
    ensures ValidRun(cfg, 0.0, c, t, Burst(n, at)) && NeverFull(cfg, c, Burst(n, at))
    ensures OnlyK(Final(cfg, c, Burst(n, at)), at) && (n > 0 ==> EndTime(t, Burst(n, at)) == at)
    ensures |Answers(cfg, c, Burst(n, at))| == n
    ensures forall i :: 0 <= i < n ==> Answers(cfg, c, Burst(n, at))[i]
    decreases n
  {
    if n > 0 {
      hide Earned;
      var e := Use("k", at, at, true, "");
      assert Burst(n, at)[1..] == Burst(n - 1, at);
      SpendTakesOne(cfg.limits, BucketOf(cfg, c, "k"), at);
      CacheBurst(cfg, Step(cfg, c, e), at, at, n - 1);
    }
  }

  /** Only as many calls as there are tokens can all be allowed by the unbounded limiter. */
  lemma {:induction false} ReferenceBurst(cfg: Config, r: Reference, at: Time, n: nat)
    ensures |RefAnswers(cfg, r, Burst(n, at))| == n
    ensures (forall i :: 0 <= i < n ==> RefAnswers(cfg, r, Burst(n, at))[i]) ==>
              n == 0 || Tokens(cfg.limits, RefBucket(cfg, r, "k"), at) >= n as real
    decreases n
  {
    if n > 0 {
      var e := Use("k", at, at, true, "");
      assert Burst(n, at)[1..] == Burst(n - 1, at);
      var r' := RefStep(cfg, r, e);
      ReferenceBurst(cfg, r', at, n - 1);
      var answers, rest := RefAnswers(cfg, r, Burst(n, at)), RefAnswers(cfg, r', Burst(n - 1, at));
      assert answers == [Tokens(cfg.limits, RefBucket(cfg, r, "k"), at) >= 1.0] + rest;
      if forall i :: 0 <= i < n ==> answers[i] {
        assert answers[0];
        assert forall i :: 0 <= i < n - 1 ==> rest[i] == answers[i + 1];
        SpendTakesOne(cfg.limits, RefBucket(cfg, r, "k"), at);
      }
    }
  }

  lemma {:induction false} ReferenceDrained(cfg: Config, r: Reference, left: nat, n: nat)
    requires n <= left <= cfg.limits.burst
    requires RefBucket(cfg, r, "k") == Bucket(left as real, 0.0)
    ensures RefBucket(cfg, RefFinal(cfg, r, Burst(n, 0.0)), "k") == Bucket((left - n) as real, 0.0)
    decreases n
  {
    if n > 0 {
      var e := Use("k", 0.0, 0.0, true, "");
      assert Burst(n, 0.0)[1..] == Burst(n - 1, 0.0);
      ReferenceDrained(cfg, RefStep(cfg, r, e), left - 1, n - 1);
    }
  }

  /** A moment just past the TTL at which the rate has not yet earned a burst. */
  lemma TooEarly(cfg: Config) returns (u: Time)
    requires cfg.idleTTL >= 0.0 && Earned(cfg.limits.rps, cfg.idleTTL) < cfg.limits.burst as real
    ensures u > cfg.idleTTL && Earned(cfg.limits.rps, u) < cfg.limits.burst as real
  {
    var rps, b := cfg.limits.rps, cfg.limits.burst as real;
    if rps <= 0.0 {
      u := cfg.idleTTL + 1.0;
    } else {
      var gap := (b - rps * cfg.idleTTL) / (2.0 * rps);
      assert rps * gap == (b - rps * cfg.idleTTL) / 2.0;
      assert gap > 0.0;
      u := cfg.idleTTL + gap;
    }
  }

  /** Drain key "k" at time 0, sweep at u, and drain it again. */
  function TwoBursts(n: nat, u: Time): seq<Event> {
    Burst(n, 0.0) + ([Sweep(u)] + Burst(n, u))
  }

  lemma TwoBurstsInCache(cfg: Config, u: Time)
    requires cfg.idleTTL >= 0.0 && cfg.maxKeys >= 1 && u > cfg.idleTTL
    ensures var n := cfg.limits.burst;
            var run := TwoBursts(n, u);
            && ValidRun(cfg, 0.0, map[], 0.0, run) && NeverFull(cfg, map[], run)
            && |Answers(cfg, map[], run)| == 2 * n
            && forall i :: 0 <= i < 2 * n ==> Answers(cfg, map[], run)[i]
  {
    var n := cfg.limits.burst;
    hide Earned;
    var first, rest := Burst(n, 0.0), [Sweep(u)] + Burst(n, u);
    EarnedAdds(cfg.limits.rps, 0.0, 0.0);
    EarnedMonotone(cfg.limits.rps, 0.0, u);
    CacheBurst(cfg, map[], 0.0, 0.0, n);
    var c := Final(cfg, map[], first);
    assert rest[0] == Sweep(u) && rest[1..] == Burst(n, u);
    assert Step(cfg, c, Sweep(u)) == map[];
    CacheBurst(cfg, map[], u, u, n);
    RunAppend(cfg, 0.0, map[], 0.0, first, rest);
    AnswersAppend(cfg, map[], first, rest);
  }

  lemma SecondBurstIsShort(cfg: Config, u: Time) returns (i: nat)
    requires u >= 0.0 && Earned(cfg.limits.rps, u) < cfg.limits.burst as real
    ensures var n := cfg.limits.burst;
            var second := RefAnswers(cfg, RefFinal(cfg, map[], Burst(n, 0.0)), Burst(n, u));
            i < |second| && !second[i]
  {
    var n := cfg.limits.burst;
    var r := RefFinal(cfg, map[], Burst(n, 0.0));
    EarnedMonotone(cfg.limits.rps, 0.0, u);
    ReferenceDrained(cfg, map[], n, n);
    ReferenceBurst(cfg, r, u, n);
    EarnedAdds(cfg.limits.rps, 0.0, 0.0);
    assert Tokens(cfg.limits, Bucket(0.0, 0.0), u) == Earned(cfg.limits.rps, u);
    i :| 0 <= i < n && !RefAnswers(cfg, r, Burst(n, u))[i];
  }

  lemma TwoBurstsInReference(cfg: Config, u: Time)
    requires u >= 0.0 && Earned(cfg.limits.rps, u) < cfg.limits.burst as real
    ensures exists i :: 0 <= i < |RefAnswers(cfg, map[], TwoBursts(cfg.limits.burst, u))|
                        && !RefAnswers(cfg, map[], TwoBursts(cfg.limits.burst, u))[i]
  {
    var n := cfg.limits.burst;
    var i := SecondBurstIsShort(cfg, u);
    hide Earned, Tokens, Burst;
    var first, rest := Burst(n, 0.0), [Sweep(u)] + Burst(n, u);
    assert rest[0] == Sweep(u) && rest[1..] == Burst(n, u);
    RefAnswersAppend(cfg, map[], first, rest);
    var got := RefAnswers(cfg, map[], TwoBursts(n, u));
    assert got == RefAnswers(cfg, map[], first) + RefAnswers(cfg, RefFinal(cfg, map[], first), Burst(n, u));
    assert !got[|RefAnswers(cfg, map[], first)| + i];
  }

  /** The TTL is short: a drained key that idles past it gets a fresh burst too early. */
  lemma ShortTTLIsVisible(cfg: Config)
    requires cfg.idleTTL >= 0.0 && cfg.maxKeys >= 1
    requires (if cfg.limits.rps < 0.0 then 0.0 else cfg.limits.rps) * cfg.idleTTL < cfg.limits.burst as real
    ensures !AlwaysAgrees(cfg)
  {
    EarnedIsProduct(cfg.limits.rps, cfg.idleTTL);
    var u := TooEarly(cfg);
    TwoBurstsInCache(cfg, u);
    TwoBurstsInReference(cfg, u);
  }

  /** The swept limiter is the unbounded limiter exactly when a TTL refills a whole burst. */
  lemma SweepIsInvisibleIff(cfg: Config)
    requires cfg.idleTTL >= 0.0 && cfg.maxKeys >= 1
    ensures AlwaysAgrees(cfg) <==>
              (if cfg.limits.rps < 0.0 then 0.0 else cfg.limits.rps) * cfg.idleTTL >= cfg.limits.burst as real
  {
    if (if cfg.limits.rps < 0.0 then 0.0 else cfg.limits.rps) * cfg.idleTTL >= cfg.limits.burst as real {
      forall t, es | ValidRun(cfg, 0.0, map[], t, es) && NeverFull(cfg, map[], es)
        ensures Answers(cfg, map[], es) == RefAnswers(cfg, map[], es)
      {
        SweepIsInvisible(cfg, 0.0, map[], map[], t, es);
      }
    } else {
      ShortTTLIsVisible(cfg);
    }
  }

  // ---------- how much one key is admitted ----------

  function Admitted(cfg: Config, c: Cache, key: Key, e: Event): nat {
    if e.Use? && e.consume && e.key == key && Answer(cfg, c, e) then 1 else 0
  }

  function TotalAdmitted(cfg: Config, c: Cache, key: Key, es: seq<Event>): nat
    decreases es
  {
    if es == [] then 0
    else Admitted(cfg, c, key, es[0]) + TotalAdmitted(cfg, Step(cfg, c, es[0]), key, es[1..])
  }

  /** An event evicts a key to make room for another one. */
  function Evicts(cfg: Config, c: Cache, key: Key, e: Event): nat {
    if e.Use? && key in c && key !in Step(cfg, c, e) then 1 else 0
  }

  function Evictions(cfg: Config, c: Cache, key: Key, es: seq<Event>): nat
    decreases es
  {
    if es == [] then 0
    else Evicts(cfg, c, key, es[0]) + Evictions(cfg, Step(cfg, c, es[0]), key, es[1..])
  }

  function Credit(cfg: Config, c: Cache, key: Key, t: Time): real {
    Tokens(cfg.limits, BucketOf(cfg, c, key), t)
  }

  lemma CreditInRange(cfg: Config, skew: real, c: Cache, key: Key, t: Time)
    requires Sane(cfg, skew, c)
    ensures 0.0 <= Credit(cfg, c, key, t) <= cfg.limits.burst as real
  {
    var b := BucketOf(cfg, c, key);
    EarnedMonotone(cfg.limits.rps, 0.0, if t < b.last then 0.0 else t - b.last);
  }

  /** n bursts' worth of tokens. */
  function Bursts(l: Limits, n: nat): real {
    if n == 0 then 0.0 else l.burst as real + Bursts(l, n - 1)
  }

  lemma {:induction false} BurstsAdd(l: Limits, m: nat, n: nat)
    ensures Bursts(l, m + n) == Bursts(l, m) + Bursts(l, n)
  {
    if m > 0 {
      BurstsAdd(l, m - 1, n);
    }
  }

  lemma {:induction false} BurstsIsProduct(l: Limits, n: nat)
    ensures Bursts(l, n) == n as real * l.burst as real
  {
    if n > 0 {
      BurstsIsProduct(l, n - 1);
      assert n as real == (n - 1) as real + 1.0;
    }
  }

  lemma WrittenOut(l: Limits, n: nat, elapsed: real)
    ensures Bursts(l, n) + Earned(l.rps, elapsed)
            == n as real * l.burst as real + (if l.rps < 0.0 then 0.0 else l.rps) * elapsed
  {
    BurstsIsProduct(l, n);
    EarnedIsProduct(l.rps, elapsed);
  }

  /** An event drops the key's bucket, by eviction or by the sweep, when it was not full. */
  function Loses(cfg: Config, c: Cache, key: Key, e: Event): nat {
    if key in c && key !in Step(cfg, c, e) && !Full(cfg.limits, c[key].bucket, e.at) then 1 else 0
  }

  function Losses(cfg: Config, c: Cache, key: Key, es: seq<Event>): nat
    decreases es
  {
    if es == [] then 0
    else Loses(cfg, c, key, es[0]) + Losses(cfg, Step(cfg, c, es[0]), key, es[1..])
  }

  /** A cache that never reaches its cap evicts nothing. */
  lemma {:induction false} NoEvictionsBelowCap(cfg: Config, c: Cache, key: Key, es: seq<Event>)
    requires NeverFull(cfg, c, es)
    ensures Evictions(cfg, c, key, es) == 0
    decreases es
  {
    if es != [] {
      hide Spend, NewBucket;
      NoEvictionsBelowCap(cfg, Step(cfg, c, es[0]), key, es[1..]);
    }
  }

  lemma AdmissionStep(cfg: Config, skew: real, c: Cache, t: Time, e: Event, key: Key)
    requires Sane(cfg, skew, c) && t <= e.at
    ensures Admitted(cfg, c, key, e) as real + Credit(cfg, Step(cfg, c, e), key, e.at)
            <= Credit(cfg, c, key, t) + Earned(cfg.limits.rps, e.at - t)
               + Bursts(cfg.limits, Loses(cfg, c, key, e))
  {
    var b := BucketOf(cfg, c, key);
    TokensOverTime(cfg.limits, b, t, e.at);
    CreditInRange(cfg, skew, c, key, e.at);
    if e.Use? && e.key == key {
      assert Loses(cfg, c, key, e) == 0;
      EarnedMonotone(cfg.limits.rps, 0.0, 0.0);
    }
  }

  lemma {:induction false} AdmissionPotential(
    cfg: Config, skew: real, c: Cache, t: Time, es: seq<Event>, key: Key)
    requires Sane(cfg, skew, c) && UsedBy(c, t) && ValidRun(cfg, skew, c, t, es)
    ensures TotalAdmitted(cfg, c, key, es) as real + Credit(cfg, Final(cfg, c, es), key, EndTime(t, es))
            <= Credit(cfg, c, key, t) + Earned(cfg.limits.rps, EndTime(t, es) - t)
               + Bursts(cfg.limits, Losses(cfg, c, key, es))
    decreases es
  {
    hide Earned, Tokens, Step, Sane, UsedBy, Admitted, Loses, LegalVictim;
    EarnedAdds(cfg.limits.rps, 0.0, 0.0);
    if es == [] {
      assert EndTime(t, es) - t == 0.0;
    } else {
      var e := es[0];
      var c' := Step(cfg, c, e);
      KeepsOrder(cfg, skew, c, t, e);
      AdmissionStep(cfg, skew, c, t, e, key);
      AdmissionPotential(cfg, skew, c', e.at, es[1..], key);
      var end := EndTime(e.at, es[1..]);
      EarnedAdds(cfg.limits.rps, e.at - t, end - e.at);
      assert e.at - t + (end - e.at) == end - t;
      BurstsAdd(cfg.limits, Loses(cfg, c, key, e), Losses(cfg, c', key, es[1..]));
    }
  }

  lemma {:induction false} RunStaysSane(cfg: Config, skew: real, c: Cache, t: Time, es: seq<Event>)
    requires Sane(cfg, skew, c) && UsedBy(c, t) && ValidRun(cfg, skew, c, t, es)
    ensures Sane(cfg, skew, Final(cfg, c, es)) && UsedBy(Final(cfg, c, es), EndTime(t, es))
    decreases es
  {
    if es != [] {
      hide Step, Sane, UsedBy;
      KeepsOrder(cfg, skew, c, t, es[0]);
      RunStaysSane(cfg, skew, Step(cfg, c, es[0]), es[0].at, es[1..]);
    }
  }

  lemma EmptyIsSane(cfg: Config, skew: real, t: Time)
    ensures Sane(cfg, skew, map[]) && UsedBy(map[], t)
  {
  }

  lemma StretchBound(cfg: Config, skew: real, c: Cache, from: Time, stretch: seq<Event>, key: Key)
    requires Sane(cfg, skew, c) && UsedBy(c, from) && ValidRun(cfg, skew, c, from, stretch)
    ensures TotalAdmitted(cfg, c, key, stretch) as real
            <= Bursts(cfg.limits, 1 + Losses(cfg, c, key, stretch))
               + Earned(cfg.limits.rps, EndTime(from, stretch) - from)
  {
    RunStaysSane(cfg, skew, c, from, stretch);
    AdmissionPotential(cfg, skew, c, from, stretch, key);
    CreditInRange(cfg, skew, c, key, from);
    CreditInRange(cfg, skew, Final(cfg, c, stretch), key, EndTime(from, stretch));
  }

  /** Whatever the TTL, and however the run began: over any later stretch of it one key is admitted at
      most a burst, one more burst for each time a bucket of it that was not full was dropped, and what
      the rate earns in that time. */
  lemma AdmissionBoundAnyTTL(
    cfg: Config, skew: real, t: Time, before: seq<Event>, stretch: seq<Event>, key: Key)
    requires ValidRun(cfg, skew, map[], t, before + stretch)
    ensures var c := Final(cfg, map[], before);
            var from := EndTime(t, before);
            TotalAdmitted(cfg, c, key, stretch) as real
            <= (1 + Losses(cfg, c, key, stretch)) as real * cfg.limits.burst as real
               + (if cfg.limits.rps < 0.0 then 0.0 else cfg.limits.rps) * (EndTime(from, stretch) - from)
  {
    hide *;
    RunAppend(cfg, skew, map[], t, before, stretch);
    EmptyIsSane(cfg, skew, t);
    RunStaysSane(cfg, skew, map[], t, before);
    var c, from := Final(cfg, map[], before), EndTime(t, before);
    StretchBound(cfg, skew, c, from, stretch, key);
    WrittenOut(cfg.limits, 1 + Losses(cfg, c, key, stretch), EndTime(from, stretch) - from);
  }

  lemma LosesByEviction(cfg: Config, skew: real, c: Cache, e: Event, key: Key)
    requires Sane(cfg, skew, c)
    requires Earned(cfg.limits.rps, cfg.idleTTL - skew) >= cfg.limits.burst as real
    ensures Loses(cfg, c, key, e) <= Evicts(cfg, c, key, e)
  {
    hide Earned, Tokens, SaneEntry;
    if e.Sweep? && key in c && key !in Step(cfg, c, e) {
      SweptWasFull(cfg, skew, c[key], e.at);
    }
  }

  /** When a TTL refills a burst, the sweep loses nothing: only evictions do. */
  lemma {:induction false} LossesAreEvictions(cfg: Config, skew: real, c: Cache, t: Time, es: seq<Event>, key: Key)
    requires Sane(cfg, skew, c) && UsedBy(c, t) && ValidRun(cfg, skew, c, t, es)
    requires (if cfg.limits.rps < 0.0 then 0.0 else cfg.limits.rps) * (cfg.idleTTL - skew)
             >= cfg.limits.burst as real
    ensures Losses(cfg, c, key, es) <= Evictions(cfg, c, key, es)
    decreases es
  {
    hide Earned, Step, Sane, UsedBy, Loses, Evicts, LegalVictim;
    EarnedIsProduct(cfg.limits.rps, cfg.idleTTL - skew);
    if es != [] {
      KeepsOrder(cfg, skew, c, t, es[0]);
      LosesByEviction(cfg, skew, c, es[0], key);
      LossesAreEvictions(cfg, skew, Step(cfg, c, es[0]), es[0].at, es[1..], key);
    }
  }

  lemma {:induction false} FewerBursts(l: Limits, m: nat, n: nat)
    requires m <= n
    ensures Bursts(l, m) <= Bursts(l, n)
  {
    if m < n {
      FewerBursts(l, m, n - 1);
    }
  }

  /** With such a TTL one key is admitted at most a burst, one more burst for each time it was evicted,
      and what the rate earns in that time. */
  lemma AdmissionBound(
    cfg: Config, skew: real, t: Time, before: seq<Event>, stretch: seq<Event>, key: Key)
    requires ValidRun(cfg, skew, map[], t, before + stretch)
    requires (if cfg.limits.rps < 0.0 then 0.0 else cfg.limits.rps) * (cfg.idleTTL - skew)
             >= cfg.limits.burst as real
    ensures var c := Final(cfg, map[], before);
            var from := EndTime(t, before);
            TotalAdmitted(cfg, c, key, stretch) as real
            <= (1 + Evictions(cfg, c, key, stretch)) as real * cfg.limits.burst as real
               + (if cfg.limits.rps < 0.0 then 0.0 else cfg.limits.rps) * (EndTime(from, stretch) - from)
  {
    hide *;
    var c, from := Final(cfg, map[], before), EndTime(t, before);
    RunAppend(cfg, skew, map[], t, before, stretch);
    EmptyIsSane(cfg, skew, t);
    RunStaysSane(cfg, skew, map[], t, before);
    StretchBound(cfg, skew, c, from, stretch, key);
    LossesAreEvictions(cfg, skew, c, from, stretch, key);
    FewerBursts(cfg.limits, 1 + Losses(cfg, c, key, stretch), 1 + Evictions(cfg, c, key, stretch));
    WrittenOut(cfg.limits, 1 + Evictions(cfg, c, key, stretch), EndTime(from, stretch) - from);
  }

  // ---------- how large the cache grows ----------

  /** One step takes a cache past its cap exactly when a new key finds the cap reached and nothing
      is evicted: the cap is zero, or the oldest key is the empty string. */
  lemma StepKeepsCapIff(cfg: Config, c: Cache, e: Event)
    requires |c| <= cfg.maxKeys
    requires e.Use? ==> LegalVictim(cfg, c, e.key, e.victim)
    ensures |Step(cfg, c, e)| <= cfg.maxKeys <==> !(e.Use? && NeedsRoom(cfg, c, e.key) && e.victim == "")
  {
    var c' := Step(cfg, c, e);
    if e.Sweep? {
      SubsetSize(c'.Keys, c.Keys);
    } else if !NeedsRoom(cfg, c, e.key) {
      if e.key in c {
        assert c'.Keys == c.Keys;
      } else {
        assert c'.Keys == c.Keys + {e.key};
      }
    } else {
      var room := Evicted(c, e.victim);
      assert c'.Keys == room.Keys + {e.key};
      if e.victim != "" {
        assert room.Keys == c.Keys - {e.victim};
      }
    }
  }

  ghost predicate NonEmptyKeys(es: seq<Event>) {
    forall i :: 0 <= i < |es| && es[i].Use? ==> es[i].key != ""
  }

  lemma {:induction false} CapHolds(cfg: Config, skew: real, c: Cache, t: Time, es: seq<Event>)
    requires cfg.maxKeys >= 1 && |c| <= cfg.maxKeys && "" !in c
    requires ValidRun(cfg, skew, c, t, es) && NonEmptyKeys(es)
    ensures |Final(cfg, c, es)| <= cfg.maxKeys
    decreases es
  {
    if es != [] {
      StepKeepsCapIff(cfg, c, es[0]);
      CapHolds(cfg, skew, Step(cfg, c, es[0]), es[0].at, es[1..]);
    }
  }

  /** n new keys, one a second, while the entry of the empty key is the oldest. */
  function Flood(from: nat, n: nat): seq<Event>
    decreases n
  {
    if n == 0 then []
    else [Use(Name(from), from as real, from as real, true, "")] + Flood(from + 1, n - 1)
  }

  function Name(n: nat): (k: Key)
    ensures |k| == n
  {
    seq(n, _ => 'a')
  }

  ghost predicate Flooding(cfg: Config, c: Cache, from: nat) {
    && "" in c && c[""].lastUsed == 0.0
    && forall k :: k in c ==> |k| < from && 0.0 <= c[k].lastUsed
  }

  lemma FloodStep(cfg: Config, c: Cache, from: nat)
    requires from >= 1 && Flooding(cfg, c, from)
    ensures var e := Use(Name(from), from as real, from as real, true, "");
            && LegalVictim(cfg, c, e.key, "")
            && |Step(cfg, c, e)| == |c| + 1
            && Flooding(cfg, Step(cfg, c, e), from + 1)
  {
    hide Earned, Tokens;
    var e := Use(Name(from), from as real, from as real, true, "");
    assert Step(cfg, c, e).Keys == c.Keys + {e.key};
  }

  lemma {:induction false} FloodGrows(cfg: Config, c: Cache, from: nat, n: nat)
    requires from >= 1 && Flooding(cfg, c, from)
    ensures ValidRun(cfg, 0.0, c, (from - 1) as real, Flood(from, n))
    ensures |Final(cfg, c, Flood(from, n))| == |c| + n
    decreases n
  {
    hide Step, Flooding, LegalVictim, Name;
    if n > 0 {
      var e := Use(Name(from), from as real, from as real, true, "");
      assert Flood(from, n)[1..] == Flood(from + 1, n - 1);
      FloodStep(cfg, c, from);
      FloodGrows(cfg, Step(cfg, c, e), from + 1, n - 1);
    }
  }

  /** Whatever the cap, the empty key followed by n others leaves n + 1 entries, for every n. */
  lemma EmptyKeyDefeatsCap(cfg: Config, n: nat) returns (es: seq<Event>)
    ensures ValidRun(cfg, 0.0, map[], 0.0, es) && |Final(cfg, map[], es)| == n + 1
  {
    var e := Use("", 0.0, 0.0, true, "");
    es := [e] + Flood(1, n);
    assert es[1..] == Flood(1, n);
    var c := Step(cfg, map[], e);
    assert c.Keys == {""};
    FloodGrows(cfg, c, 1, n);
  }
}
