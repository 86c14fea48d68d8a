/** When a call is refused: the bound on admissions is not only kept, it is all that ever stands in the
    way of a call. */
module ExactAdmission {
  import opened TokenBuckets

  /** A bucket at rest at time t. */
  ghost predicate Settled(l: Limits, b: Bucket, t: Time) {
    && 0.0 <= b.tokens <= l.burst as real
    && (b.tokens == l.burst as real || b.last <= t)
  }

  function Capped(l: Limits, tokens: real): real {
    if tokens > l.burst as real then l.burst as real else tokens
  }

  lemma TokensLater(l: Limits, b: Bucket, t: Time, u: Time)
    requires Settled(l, b, t) && t <= u
    ensures Settled(l, b, u)
    ensures Tokens(l, b, u) == Capped(l, Tokens(l, b, t) + Earned(l.rps, u - t))
  {
    EarnedMonotone(l.rps, 0.0, u - t);
    if b.last <= t {
      EarnedAdds(l.rps, t - b.last, u - t);
      assert t - b.last + (u - t) == u - b.last;
    } else {
      EarnedMonotone(l.rps, 0.0, if u < b.last then 0.0 else u - b.last);
    }
  }

  lemma SpendSettles(l: Limits, b: Bucket, t: Time)
    requires Settled(l, b, t)
    ensures Settled(l, Spend(l, b, t), t)
    ensures Tokens(l, Spend(l, b, t), t) == Tokens(l, b, t) - if Tokens(l, b, t) >= 1.0 then 1.0 else 0.0
    ensures 0.0 <= Tokens(l, b, t) <= l.burst as real
  {
    EarnedMonotone(l.rps, 0.0, if t < b.last then 0.0 else t - b.last);
    EarnedAdds(l.rps, 0.0, 0.0);
  }

  lemma NewBucketIsSettled(l: Limits, t: Time)
    ensures Settled(l, NewBucket(l), t) && Tokens(l, NewBucket(l), t) == l.burst as real
  {
    EarnedMonotone(l.rps, 0.0, if t < 0.0 then 0.0 else t);
  }

  /** What one event does to the bucket of a key. */
  lemma BucketAfter(cfg: Config, c: Cache, key: Key, e: Event)
    ensures BucketOf(cfg, Step(cfg, c, e), key) ==
            if e.Use? && e.consume && e.key == key then Spend(cfg.limits, BucketOf(cfg, c, key), e.at)
            else if key in c && key !in Step(cfg, c, e) then NewBucket(cfg.limits)
            else BucketOf(cfg, c, key)
  {
    hide Spend, Tokens;
  }

  lemma CreditAfter(cfg: Config, c: Cache, key: Key, t: Time, e: Event)
    requires Settled(cfg.limits, BucketOf(cfg, c, key), t) && t <= e.at
    requires Loses(cfg, c, key, e) == 0
    ensures Settled(cfg.limits, BucketOf(cfg, Step(cfg, c, e), key), e.at)
    ensures Credit(cfg, Step(cfg, c, e), key, e.at)
            == Capped(cfg.limits, Credit(cfg, c, key, t) + Earned(cfg.limits.rps, e.at - t))
               - Admitted(cfg, c, key, e) as real
  {
    hide Spend, Step, Tokens, Earned;
    BucketAfter(cfg, c, key, e);
    TokensLater(cfg.limits, BucketOf(cfg, c, key), t, e.at);
    SpendSettles(cfg.limits, BucketOf(cfg, c, key), e.at);
    NewBucketIsSettled(cfg.limits, e.at);
  }

  /** x more tokens at time u keep every stretch of the run within the bound. */
  ghost predicate HasRoom(cfg: Config, c: Cache, key: Key, es: seq<Event>, u: Time, x: real)
    decreases es
  {
    es != [] ==>
      && x + TotalAdmitted(cfg, c, key, es) as real <= cfg.limits.burst as real + Earned(cfg.limits.rps, u - es[0].at)
      && HasRoom(cfg, Step(cfg, c, es[0]), key, es[1..], u, x)
  }

  /** The same for the stretch that begins with event j. */
  ghost predicate Fits(cfg: Config, c: Cache, key: Key, es: seq<Event>, j: nat, u: Time, x: real)
    requires j < |es|
  {
    x + TotalAdmitted(cfg, Final(cfg, c, es[..j]), key, es[j..]) as real
    <= cfg.limits.burst as real + Earned(cfg.limits.rps, u - es[j].at)
  }

  lemma FitsLater(cfg: Config, c: Cache, key: Key, es: seq<Event>, j: nat, u: Time, x: real)
    requires j + 1 < |es|
    ensures Fits(cfg, c, key, es, j + 1, u, x) == Fits(cfg, Step(cfg, c, es[0]), key, es[1..], j, u, x)
  {
    hide Step, TotalAdmitted, Earned;
    assert es[1..][j..] == es[j + 1..];
    assert es[..j + 1][0] == es[0] && es[..j + 1][1..] == es[1..][..j];
  }

  lemma {:induction false} HasRoomIff(cfg: Config, c: Cache, key: Key, es: seq<Event>, u: Time, x: real)
    ensures HasRoom(cfg, c, key, es, u, x) <==> forall j :: 0 <= j < |es| ==> Fits(cfg, c, key, es, j, u, x)
    decreases es
  {
    if es != [] {
      var c', rest := Step(cfg, c, es[0]), es[1..];
      HasRoomIff(cfg, c', key, rest, u, x);
      assert es[..0] == [] && es[0..] == es;
      assert Fits(cfg, c, key, es, 0, u, x)
          == (x + TotalAdmitted(cfg, c, key, es) as real <= cfg.limits.burst as real + Earned(cfg.limits.rps, u - es[0].at));
      hide Fits, Step, Earned, TotalAdmitted;
      forall j | 0 <= j < |rest|
        ensures Fits(cfg, c, key, es, j + 1, u, x) == Fits(cfg, c', key, rest, j, u, x)
      {
        FitsLater(cfg, c, key, es, j, u, x);
      }
      if HasRoom(cfg, c, key, es, u, x) {
        forall j | 0 <= j < |es|
          ensures Fits(cfg, c, key, es, j, u, x)
        {
          if j > 0 {
            assert Fits(cfg, c', key, rest, j - 1, u, x);
            FitsLater(cfg, c, key, es, j - 1, u, x);
          }
        }
      } else if Fits(cfg, c, key, es, 0, u, x) {
        var j :| 0 <= j < |rest| && !Fits(cfg, c', key, rest, j, u, x);
        assert !Fits(cfg, c, key, es, j + 1, u, x);
      }
    }
  }

  lemma CreditLater(cfg: Config, c: Cache, key: Key, t: Time, u: Time)
    requires Settled(cfg.limits, BucketOf(cfg, c, key), t) && t <= u
    ensures Credit(cfg, c, key, u) == Capped(cfg.limits, Credit(cfg, c, key, t) + Earned(cfg.limits.rps, u - t))
  {
    TokensLater(cfg.limits, BucketOf(cfg, c, key), t, u);
  }

  /** The tokens there are at the end of a run: the least that any stretch of it leaves. */
  lemma {:induction false} CreditIff(
    cfg: Config, skew: real, c: Cache, key: Key, t: Time, es: seq<Event>, u: Time, x: real)
    requires Settled(cfg.limits, BucketOf(cfg, c, key), t)
    requires ValidRun(cfg, skew, c, t, es) && EndTime(t, es) <= u && Losses(cfg, c, key, es) == 0
    ensures t <= EndTime(t, es)
    ensures Credit(cfg, Final(cfg, c, es), key, u) >= x <==>
              && x <= cfg.limits.burst as real
              && x + TotalAdmitted(cfg, c, key, es) as real <= Credit(cfg, c, key, t) + Earned(cfg.limits.rps, u - t)
              && HasRoom(cfg, c, key, es, u, x)
    decreases es
  {
    hide Step, Earned, Tokens, Settled, BucketOf, Credit, Admitted, Loses, LegalVictim;
    if es == [] {
      CreditLater(cfg, c, key, t, u);
    } else {
      var e := es[0];
      CreditAfter(cfg, c, key, t, e);
      CreditIff(cfg, skew, Step(cfg, c, e), key, e.at, es[1..], u, x);
      EarnedAdds(cfg.limits.rps, e.at - t, u - e.at);
      assert e.at - t + (u - e.at) == u - t;
    }
  }

  lemma {:induction false} FinalAppend(cfg: Config, c: Cache, t: Time, a: seq<Event>, b: seq<Event>)
    ensures Final(cfg, c, a + b) == Final(cfg, Final(cfg, c, a), b)
    ensures EndTime(t, a + b) == EndTime(EndTime(t, a), b)
    decreases a
  {
    hide Step;
    if a == [] {
      assert a + b == b;
    } else {
      assert (a + b)[0] == a[0] && (a + b)[1..] == a[1..] + b;
      FinalAppend(cfg, Step(cfg, c, a[0]), a[0].at, a[1..], b);
    }
  }

  lemma SplitCall(cfg: Config, skew: real, t: Time, before: seq<Event>, es: seq<Event>, call: Event)
    requires ValidRun(cfg, skew, map[], t, before + es + [call])
    ensures var c, from := Final(cfg, map[], before), EndTime(t, before);
            && ValidRun(cfg, skew, map[], t, before)
            && ValidRun(cfg, skew, c, from, es) && EndTime(from, es) <= call.at
            && Final(cfg, map[], before + es) == Final(cfg, c, es)
  {
    hide Step, LegalVictim;
    RunAppend(cfg, skew, map[], t, before + es, [call]);
    RunAppend(cfg, skew, map[], t, before, es);
    FinalAppend(cfg, map[], t, before, es);
  }

  lemma {:induction false} TimeGoesOn(cfg: Config, skew: real, c: Cache, t: Time, es: seq<Event>)
    requires ValidRun(cfg, skew, c, t, es)
    ensures t <= EndTime(t, es)
    decreases es
  {
    hide Step, LegalVictim;
    if es != [] {
      TimeGoesOn(cfg, skew, Step(cfg, c, es[0]), es[0].at, es[1..]);
    }
  }

  lemma FirstCallHasRoom(cfg: Config, skew: real, c: Cache, key: Key, from: Time, es: seq<Event>, u: Time)
    requires ValidRun(cfg, skew, c, from, es) && EndTime(from, es) <= u
    requires cfg.limits.burst >= 1 && HasRoom(cfg, c, key, es, u, 1.0)
    ensures 1.0 + TotalAdmitted(cfg, c, key, es) as real <= cfg.limits.burst as real + Earned(cfg.limits.rps, u - from)
  {
    hide Earned, Step;
    TimeGoesOn(cfg, skew, c, from, es);
    EarnedAdds(cfg.limits.rps, 0.0, 0.0);
    EarnedMonotone(cfg.limits.rps, 0.0, u - from);
    if es != [] {
      EarnedMonotone(cfg.limits.rps, u - es[0].at, u - from);
    }
  }

  lemma OneMore(l: Limits, n: nat, elapsed: real)
    ensures 1.0 + n as real <= l.burst as real + Earned(l.rps, elapsed) <==>
            (1 + n) as real <= l.burst as real + (if l.rps < 0.0 then 0.0 else l.rps) * elapsed
  {
    EarnedIsProduct(l.rps, elapsed);
    hide Earned;
    assert (1 + n) as real == 1.0 + n as real;
  }

  lemma FitsWrittenOut(cfg: Config, c: Cache, key: Key, es: seq<Event>, j: nat, u: Time)
    requires j < |es|
    ensures Fits(cfg, c, key, es, j, u, 1.0) <==>
              (1 + TotalAdmitted(cfg, Final(cfg, c, es[..j]), key, es[j..])) as real
              <= cfg.limits.burst as real
                 + (if cfg.limits.rps < 0.0 then 0.0 else cfg.limits.rps) * (u - es[j].at)
  {
    hide Earned, TotalAdmitted, Final;
    OneMore(cfg.limits, TotalAdmitted(cfg, Final(cfg, c, es[..j]), key, es[j..]), u - es[j].at);
  }

  lemma AllowedIffFits(cfg: Config, skew: real, t: Time, before: seq<Event>, es: seq<Event>, call: Event)
    requires call.Use? && ValidRun(cfg, skew, map[], t, before + es + [call])
    requires call.key !in Final(cfg, map[], before)
    requires Losses(cfg, Final(cfg, map[], before), call.key, es) == 0
    ensures var c := Final(cfg, map[], before);
            Answer(cfg, Final(cfg, map[], before + es), call) <==>
              cfg.limits.burst >= 1 && forall j :: 0 <= j < |es| ==> Fits(cfg, c, call.key, es, j, call.at, 1.0)
  {
    var c, from := Final(cfg, map[], before), EndTime(t, before);
    SplitCall(cfg, skew, t, before, es, call);
    NewBucketIsSettled(cfg.limits, from);
    CreditIff(cfg, skew, c, call.key, from, es, call.at, 1.0);
    HasRoomIff(cfg, c, call.key, es, call.at, 1.0);
    if cfg.limits.burst >= 1 && HasRoom(cfg, c, call.key, es, call.at, 1.0) {
      FirstCallHasRoom(cfg, skew, c, call.key, from, es, call.at);
    }
    hide Fits, HasRoom, ValidRun, Losses, Tokens, Settled, Step, Earned;
  }

  /** While no bucket of the key that was not full is dropped, a call is allowed exactly when it keeps the
      bound: the burst is at least one, and for every stretch of the run that ends with the call, the calls
      admitted in it and this one are at most a burst and what the rate earns in it. The run counts from any
      point where the key has no bucket, its first call for one. */
  lemma AllowedIffWithinBound(
    cfg: Config, skew: real, t: Time, before: seq<Event>, es: seq<Event>, call: Event)
    requires call.Use? && ValidRun(cfg, skew, map[], t, before + es + [call])
    requires call.key !in Final(cfg, map[], before)
    requires Losses(cfg, Final(cfg, map[], before), call.key, es) == 0
    ensures var c := Final(cfg, map[], before);
            Answer(cfg, Final(cfg, map[], before + es), call) <==>
              && cfg.limits.burst >= 1
              && forall j :: 0 <= j < |es| ==>
                   (1 + TotalAdmitted(cfg, Final(cfg, c, es[..j]), call.key, es[j..])) as real
                   <= cfg.limits.burst as real
                      + (if cfg.limits.rps < 0.0 then 0.0 else cfg.limits.rps) * (call.at - es[j].at)
  {
    hide *;
    var c := Final(cfg, map[], before);
    AllowedIffFits(cfg, skew, t, before, es, call);
    forall j | 0 <= j < |es|
      ensures Fits(cfg, c, call.key, es, j, call.at, 1.0) <==>
                (1 + TotalAdmitted(cfg, Final(cfg, c, es[..j]), call.key, es[j..])) as real
                <= cfg.limits.burst as real
                   + (if cfg.limits.rps < 0.0 then 0.0 else cfg.limits.rps) * (call.at - es[j].at)
    {
      FitsWrittenOut(cfg, c, call.key, es, j, call.at);
    }
  }

  // ---------- a client that waits ----------

  ghost predicate SpendsNone(es: seq<Event>, key: Key) {
    forall i :: 0 <= i < |es| ==> !(es[i].Use? && es[i].consume && es[i].key == key)
  }

  /** Whoever calls meanwhile, a key that does not keeps its bucket or has a full one. */
  lemma {:induction false} KeepsOrRefills(cfg: Config, c: Cache, key: Key, es: seq<Event>)
    requires SpendsNone(es, key)
    ensures BucketOf(cfg, Final(cfg, c, es), key) in {BucketOf(cfg, c, key), NewBucket(cfg.limits)}
    decreases es
  {
    hide Step, NewBucket;
    if es != [] {
      BucketAfter(cfg, c, key, es[0]);
      KeepsOrRefills(cfg, Step(cfg, c, es[0]), key, es[1..]);
    }
  }

  lemma RestedBucket(l: Limits, b: Bucket, p: Time, u: Time)
    requires l.burst >= 1 && (b == NewBucket(l) || (b.tokens >= 0.0 && (b.tokens == l.burst as real || b.last <= p)))
    requires Earned(l.rps, u - p) >= 1.0
    ensures Tokens(l, b, u) >= 1.0
  {
    EarnedMonotone(l.rps, 0.0, if u < b.last then 0.0 else u - b.last);
    if b.tokens < l.burst as real {
      EarnedMonotone(l.rps, u - p, u - b.last);
      if u < b.last {
        EarnedMonotone(l.rps, u - p, 0.0);
      }
    }
  }

  lemma EarnsOne(rps: real, elapsed: real)
    requires elapsed >= 0.0 && rps * elapsed >= 1.0
    ensures Earned(rps, elapsed) >= 1.0
  {
    if rps <= 0.0 {
      ProductIsNonNegative(-rps, elapsed);
    }
  }

  lemma {:induction false} RunSettles(cfg: Config, skew: real, c: Cache, t: Time, es: seq<Event>, key: Key)
    requires Settled(cfg.limits, BucketOf(cfg, c, key), t) && ValidRun(cfg, skew, c, t, es)
    ensures Settled(cfg.limits, BucketOf(cfg, Final(cfg, c, es), key), EndTime(t, es))
    decreases es
  {
    hide Step, Spend, Tokens, NewBucket, LegalVictim, Settled, BucketOf;
    if es != [] {
      BucketAfter(cfg, c, key, es[0]);
      TokensLater(cfg.limits, BucketOf(cfg, c, key), t, es[0].at);
      SpendSettles(cfg.limits, BucketOf(cfg, c, key), es[0].at);
      NewBucketIsSettled(cfg.limits, es[0].at);
      RunSettles(cfg, skew, Step(cfg, c, es[0]), es[0].at, es[1..], key);
    }
  }

  lemma RestedAnswer(
    cfg: Config, skew: real, t: Time, before: seq<Event>, last: Event, between: seq<Event>, call: Event)
    requires ValidRun(cfg, skew, map[], t, before + [last] + between + [call])
    requires last.Use? && call.Use? && call.key == last.key && SpendsNone(between, call.key)
    requires cfg.limits.burst >= 1
    ensures call.at >= last.at
    ensures Earned(cfg.limits.rps, call.at - last.at) >= 1.0 ==>
              Answer(cfg, Final(cfg, map[], before + [last] + between), call)
  {
    hide ValidRun, Earned, Tokens, Step, SpendsNone;
    SplitCall(cfg, skew, t, before + [last], between, call);
    var c := Final(cfg, map[], before + [last]);
    NewBucketIsSettled(cfg.limits, t);
    RunSettles(cfg, skew, map[], t, before + [last], call.key);
    FinalAppend(cfg, map[], t, before, [last]);
    KeepsOrRefills(cfg, c, call.key, between);
    TimeGoesOn(cfg, skew, c, last.at, between);
    if Earned(cfg.limits.rps, call.at - last.at) >= 1.0 {
      RestedBucket(cfg.limits, BucketOf(cfg, Final(cfg, c, between), call.key), last.at, call.at);
    }
  }

  /** In any run, evictions and sweeps included: a call of a key whose rate has earned one token since the
      key's last call is allowed. */
  lemma RestedCallIsAllowed(
    cfg: Config, skew: real, t: Time, before: seq<Event>, last: Event, between: seq<Event>, call: Event)
    requires ValidRun(cfg, skew, map[], t, before + [last] + between + [call])
    requires last.Use? && call.Use? && call.key == last.key && SpendsNone(between, call.key)
    requires cfg.limits.burst >= 1 && cfg.limits.rps * (call.at - last.at) >= 1.0
    ensures Answer(cfg, Final(cfg, map[], before + [last] + between), call)
  {
    hide *;
    RestedAnswer(cfg, skew, t, before, last, between, call);
    EarnsOne(cfg.limits.rps, call.at - last.at);
  }

  /** A refused call takes nothing: its key's bucket, and every other key's unless it made room, are as before. */
  lemma RefusedCallIsFree(cfg: Config, c: Cache, call: Event, key: Key)
    requires call.Use? && !Answer(cfg, c, call)
    requires key in Step(cfg, c, call) || key !in c
    ensures BucketOf(cfg, Step(cfg, c, call), key) == BucketOf(cfg, c, key)
  {
    BucketAfter(cfg, c, key, call);
  }

  /** A key nobody called has a whole burst. */
  lemma FreshKeyHasBurst(cfg: Config, c: Cache, call: Event)
    requires call.Use? && call.key !in c
    ensures Answer(cfg, c, call) <==> cfg.limits.burst >= 1
  {
    NewBucketIsSettled(cfg.limits, call.at);
  }
}
