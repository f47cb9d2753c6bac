/** The gateway's limit on requests per hotkey: a bucket of two tokens that refills over time, in a table that forgets
  * buckets when it is full.
  */
module RateLimiter {
  type Hotkey = string

  const CAPACITY := 2.0
  const TABLE := 4097
  const STALE := 60.0

  /** The tokens left by the last admission, and its time. */
  datatype Bucket = Bucket(tokens: real, at: real)

  datatype Answer = Admitted | Limited | TableFull

  function Min(a: real, b: real): real { if a < b then a else b }
  function Max(a: real, b: real): real { if a < b then b else a }

  /** Tokens refilled in a stretch of time. */
  function Refill(elapsed: real, interval: real): real
    requires interval > 0.0
  {
    elapsed / interval
  }

  lemma RefillAdds(a: real, b: real, interval: real)
    requires interval > 0.0
    ensures Refill(a + b, interval) == Refill(a, interval) + Refill(b, interval)
  {
  }

  lemma RefillGrows(a: real, b: real, interval: real)
    requires interval > 0.0 && a <= b
    ensures Refill(a, interval) <= Refill(b, interval)
  {
    RefillAdds(a, b - a, interval);
    assert (b - a) / interval >= 0.0;
  }

  lemma RefillOfTwo(elapsed: real, interval: real)
    requires interval > 0.0 && elapsed >= 2.0 * interval
    ensures Refill(elapsed, interval) >= 2.0
  {
    RefillGrows(2.0 * interval, elapsed, interval);
    assert 2.0 * interval / interval == 2.0;
  }

  function Fill(b: Bucket, now: real, interval: real): real
    requires interval > 0.0
  {
    b.tokens + Refill(now - b.at, interval)
  }

  function BucketOf(rate: map<Hotkey, Bucket>, hotkey: Hotkey, now: real): Bucket {
    if hotkey in rate then rate[hotkey] else Bucket(CAPACITY, now)
  }

  /** The decision of a limiter with this table. */
  predicate OutOfTokens(rate: map<Hotkey, Bucket>, hotkey: Hotkey, now: real, interval: real) {
    interval > 0.0 && Fill(BucketOf(rate, hotkey, now), now, interval) < 1.0
  }

  function Spent(rate: map<Hotkey, Bucket>, hotkey: Hotkey, now: real, interval: real): Bucket {
    if interval > 0.0 then Bucket(Min(CAPACITY, Fill(BucketOf(rate, hotkey, now), now, interval)) - 1.0, now)
    else Bucket(CAPACITY, now)
  }

  /** The buckets used within a minute, or within the time that a bucket takes to fill. */
  function Recent(rate: map<Hotkey, Bucket>, now: real, interval: real): map<Hotkey, Bucket> {
    map h | h in rate && now - rate[h].at < Max(STALE, 2.0 * interval) :: rate[h]
  }

  lemma RecentIsFewer(rate: map<Hotkey, Bucket>, now: real, interval: real)
    ensures |Recent(rate, now, interval)| <= |rate|
  {
    var recent := Recent(rate, now, interval);
    assert recent.Keys <= rate.Keys;
    assert |rate.Keys - recent.Keys| == |rate.Keys| - |recent.Keys|;
    assert |rate| == |rate.Keys| && |recent| == |recent.Keys|;
  }

  lemma OneMoreBucket(rate: map<Hotkey, Bucket>, h: Hotkey, b: Bucket)
    ensures |rate[h := b]| == |rate| + if h in rate then 0 else 1
  {
    assert rate[h := b].Keys == rate.Keys + {h};
    assert |rate| == |rate.Keys| && |rate[h := b]| == |rate[h := b].Keys|;
  }

  /** Of the admissions at these times, any stretch of length w holds at most 2 + w / interval. */
  predicate Bounded(times: seq<real>, interval: real)
    requires interval > 0.0
  {
    forall i, j :: 0 <= i <= j < |times| ==> (j - i + 1) as real <= 2.0 + Refill(times[j] - times[i], interval)
  }

  /** What is left of the bound in the stretch from the i-th admission to the last. */
  function Slack(times: seq<real>, i: nat, interval: real): real
    requires interval > 0.0 && i < |times|
  {
    1.0 + Refill(times[|times| - 1] - times[i], interval) - (|times| - 1 - i) as real
  }

  /** The tokens left are the least slack of all stretches that end with the last admission. */
  predicate Accounted(times: seq<real>, b: Bucket, interval: real)
    requires interval > 0.0
  {
    && times != [] && b.at == times[|times| - 1] && 0.0 <= b.tokens <= CAPACITY
    && (forall i :: 0 <= i < |times| ==> b.tokens <= Slack(times, i, interval))
    && exists i :: 0 <= i < |times| && b.tokens == Slack(times, i, interval)
  }

  lemma SlackGrows(times: seq<real>, i: nat, now: real, interval: real)
    requires interval > 0.0 && i < |times|
    ensures Slack(times + [now], i, interval) == Slack(times, i, interval) + Refill(now - times[|times| - 1], interval) - 1.0
  {
    RefillAdds(times[|times| - 1] - times[i], now - times[|times| - 1], interval);
  }

  /** One more admission, with at least one token at some moment not after it. */
  lemma AdmissionIsAccounted(times: seq<real>, b: Bucket, seen: real, now: real, interval: real)
    requires interval > 0.0 && Bounded(times, interval) && Accounted(times, b, interval)
    requires b.at <= seen <= now && Fill(b, seen, interval) >= 1.0
    ensures var next := Bucket(Min(CAPACITY, Fill(b, now, interval)) - 1.0, now);
            Bounded(times + [now], interval) && Accounted(times + [now], next, interval)
  {
    var next, longer, n := Bucket(Min(CAPACITY, Fill(b, now, interval)) - 1.0, now), times + [now], |times|;
    RefillGrows(seen - b.at, now - b.at, interval);
    assert Refill(0.0, interval) == 0.0;
    assert Slack(longer, n, interval) == 1.0;
    forall i | 0 <= i <= n ensures next.tokens <= Slack(longer, i, interval) {
      if i < n { SlackGrows(times, i, now, interval); }
    }
    assert exists i :: 0 <= i <= n && next.tokens == Slack(longer, i, interval) by {
      if Fill(b, now, interval) < CAPACITY {
        var i :| 0 <= i < n && b.tokens == Slack(times, i, interval);
        SlackGrows(times, i, now, interval);
      }
    }
    forall i, j | 0 <= i <= j <= n ensures (j - i + 1) as real <= 2.0 + Refill(longer[j] - longer[i], interval) {
      if j < n {
        assert longer[j] == times[j] && longer[i] == times[i];
      } else {
        assert next.tokens <= Slack(longer, i, interval);
      }
    }
    hide Refill;
  }

  /** A bucket has no token exactly when one more admission would exceed the bound in some stretch of time. */
  lemma RefusedIffExceeding(times: seq<real>, b: Bucket, now: real, interval: real)
    requires interval > 0.0 && Bounded(times, interval) && Accounted(times, b, interval) && b.at <= now
    ensures Fill(b, now, interval) < 1.0 <==> !Bounded(times + [now], interval)
  {
    var longer, n := times + [now], |times|;
    if Fill(b, now, interval) < 1.0 {
      var i :| 0 <= i < n && b.tokens == Slack(times, i, interval);
      SlackGrows(times, i, now, interval);
      assert longer[n] == now && longer[i] == times[i];
      assert (n - i + 1) as real > 2.0 + Refill(longer[n] - longer[i], interval);
    } else {
      AdmissionIsAccounted(times, b, now, now, interval);
    }
  }

  lemma FirstAdmissionIsAccounted(now: real, interval: real)
    requires interval > 0.0
    ensures Bounded([now], interval) && Accounted([now], Bucket(CAPACITY - 1.0, now), interval)
  {
    assert Refill(0.0, interval) == 0.0;
    assert Slack([now], 0, interval) == 1.0;
  }

  /** A forgotten bucket had already filled up. */
  ghost predicate OnlyFullForgotten(rate: map<Hotkey, Bucket>, kept: map<Hotkey, Bucket>, clock: real, interval: real) {
    && rate.Keys <= kept.Keys
    && (forall h :: h in kept ==> kept[h].at <= clock)
    && (forall h :: h in kept ==>
          if h in rate then rate[h] == kept[h] else interval > 0.0 ==> Fill(kept[h], clock, interval) >= CAPACITY)
  }

  lemma SpendingForgetsNothing(rate: map<Hotkey, Bucket>, kept: map<Hotkey, Bucket>, clock: real, interval: real, h: Hotkey,
                               b: Bucket, now: real)
    requires OnlyFullForgotten(rate, kept, clock, interval) && clock <= now && b.at == now
    ensures OnlyFullForgotten(rate[h := b], kept[h := b], now, interval)
  {
    forall g | g in kept && interval > 0.0 ensures Fill(kept[g], now, interval) >= Fill(kept[g], clock, interval) {
      RefillGrows(clock - kept[g].at, now - kept[g].at, interval);
    }
    hide Fill;
  }

  class RateLimiter {
    const interval: real
    var rate: map<Hotkey, Bucket>
    var busy: set<Hotkey>

    /** The table of a limiter that never forgets, the times of all admissions, and the time of the last event. */
    ghost var kept: map<Hotkey, Bucket>
    ghost var admissions: map<Hotkey, seq<real>>
    ghost var clock: real

    ghost predicate Valid()
      reads this
    {
      && OnlyFullForgotten(rate, kept, clock, interval) && admissions.Keys == kept.Keys && |rate| <= TABLE
      && (interval > 0.0 ==>
            forall h :: h in kept ==> Bounded(admissions[h], interval) && Accounted(admissions[h], kept[h], interval))
    }

    constructor (interval: real, now: real)
      ensures Valid() && this.interval == interval && admissions == map[] && busy == {} && clock == now
    {
      this.interval, rate, busy, kept, admissions, clock := interval, map[], {}, map[], map[], now;
    }

    method IsLimited(hotkey: Hotkey, now: real) returns (limited: bool)
      ensures limited <==> hotkey in busy || OutOfTokens(rate, hotkey, now, interval)
    {
      if hotkey in busy {
        return true;
      }
      var bucket := if hotkey in rate then rate[hotkey] else Bucket(CAPACITY, now);
      limited := interval > 0.0 && bucket.tokens + (now - bucket.at) / interval < 1.0;
    }

    /** The table decides like one that never forgets. */
    lemma DecidesAlike(hotkey: Hotkey, now: real)
      requires Valid() && now >= clock
      ensures OutOfTokens(rate, hotkey, now, interval) <==> OutOfTokens(kept, hotkey, now, interval)
      ensures Spent(rate, hotkey, now, interval) == Spent(kept, hotkey, now, interval)
    {
      if interval > 0.0 && hotkey in kept && hotkey !in rate {
        RefillGrows(clock - kept[hotkey].at, now - kept[hotkey].at, interval);
        assert Refill(0.0, interval) == 0.0;
      }
    }

    /** Drops the buckets that have not been used for long enough to be full. */
    method Forget(now: real)
      requires Valid() && now >= clock
      modifies this`rate, this`clock
      ensures Valid() && clock == now && rate == Recent(old(rate), now, interval)
    {
      hide Refill, Bounded, Accounted;
      forall h | h in kept && interval > 0.0
        ensures Fill(kept[h], now, interval) >= Fill(kept[h], clock, interval)
        ensures now - kept[h].at >= 2.0 * interval ==> Fill(kept[h], now, interval) >= CAPACITY
      {
        RefillGrows(clock - kept[h].at, now - kept[h].at, interval);
        if now - kept[h].at >= 2.0 * interval { RefillOfTwo(now - kept[h].at, interval); }
        TokensOf(h);
      }
      RecentIsFewer(rate, now, interval);
      rate := map h | h in rate && now - rate[h].at < Max(STALE, 2.0 * interval) :: rate[h];
      clock := now;
    }

    lemma TokensOf(h: Hotkey)
      requires Valid() && interval > 0.0 && h in kept
      ensures 0.0 <= kept[h].tokens <= CAPACITY
    {
    }

    /** Takes a token for a hotkey that was found to have one. */
    method Spend(hotkey: Hotkey, now: real, ghost seen: real)
      requires Valid() && clock <= now && hotkey !in busy && (hotkey in rate || |rate| < TABLE)
      requires !OutOfTokens(kept, hotkey, seen, interval)
      requires (hotkey in kept ==> kept[hotkey].at <= seen) && seen <= now
      modifies this
      ensures Valid() && clock == now && busy == old(busy) + {hotkey} && rate.Keys == old(rate).Keys + {hotkey}
      ensures kept == old(kept)[hotkey := Spent(old(kept), hotkey, now, interval)]
      ensures admissions == old(admissions)[hotkey := old(if hotkey in admissions then admissions[hotkey] else []) + [now]]
    {
      hide Bounded, Accounted, Refill, Fill, OutOfTokens, Spent, BucketOf, OnlyFullForgotten;
      DecidesAlike(hotkey, now);
      SpendingIsAccounted(hotkey, now, seen);
      SpendingForgetsNothing(rate, kept, clock, interval, hotkey, Taken(hotkey, now), now);
      ghost var times := if hotkey in admissions then admissions[hotkey] else [];
      ghost var spent := Spent(kept, hotkey, now, interval);
      OneMoreBucket(rate, hotkey, Taken(hotkey, now));
      rate := rate[hotkey := Taken(hotkey, now)];
      busy := busy + {hotkey};
      kept, admissions, clock := kept[hotkey := spent], admissions[hotkey := times + [now]], now;
    }

    /** The bucket after one more admission. */
    function Taken(hotkey: Hotkey, now: real): (b: Bucket)
      reads this`rate
      ensures b == Spent(rate, hotkey, now, interval) && b.at == now
    {
      var bucket := if hotkey in rate then rate[hotkey] else Bucket(CAPACITY, now);
      if interval > 0.0 then Bucket(Min(CAPACITY, bucket.tokens + (now - bucket.at) / interval) - 1.0, now)
      else Bucket(CAPACITY, now)
    }

    lemma SpendingIsAccounted(hotkey: Hotkey, now: real, seen: real)
      requires Valid() && clock <= now && !OutOfTokens(kept, hotkey, seen, interval)
      requires (hotkey in kept ==> kept[hotkey].at <= seen) && seen <= now
      ensures var times := (if hotkey in admissions then admissions[hotkey] else []) + [now];
              interval > 0.0 ==>
                Bounded(times, interval) && Accounted(times, Spent(kept, hotkey, now, interval), interval)
    {
      hide Bounded, Accounted;
      if interval > 0.0 {
        if hotkey in kept {
          AdmissionIsAccounted(admissions[hotkey], kept[hotkey], seen, now, interval);
        } else {
          assert Refill(0.0, interval) == 0.0 && [] + [now] == [now];
          FirstAdmissionIsAccounted(now, interval);
        }
      }
    }

    /** A request of an authenticated hotkey, looked at once and admitted a little later. Except when the table is
      * full of buckets in use, the answer is that of a limiter that never forgets.
      */
    method Admit(hotkey: Hotkey, seen: real, now: real) returns (answer: Answer)
      requires Valid() && clock <= seen <= now
      modifies this
      ensures Valid()
      ensures answer == Limited <==> hotkey in old(busy) || OutOfTokens(old(kept), hotkey, seen, interval)
      ensures answer == TableFull <==>
                && !(hotkey in old(busy) || OutOfTokens(old(kept), hotkey, seen, interval))
                && |old(rate)| >= TABLE && hotkey !in Recent(old(rate), now, interval) && |Recent(old(rate), now, interval)| >= TABLE
      ensures answer != Admitted ==> kept == old(kept)
      ensures answer == Admitted ==>
                && kept == old(kept)[hotkey := Spent(old(kept), hotkey, now, interval)] && busy == old(busy) + {hotkey}
                && admissions == old(admissions)[hotkey := old(if hotkey in admissions then admissions[hotkey] else []) + [now]]
      ensures answer != Admitted ==> admissions == old(admissions) && busy == old(busy)
    {
      hide OutOfTokens, Spent, OnlyFullForgotten, Bounded, Accounted, Recent;
      DecidesAlike(hotkey, seen);
      KeptIsPast(hotkey);
      var limited := IsLimited(hotkey, seen);
      if limited {
        return Limited;
      }
      if |rate| >= TABLE {
        Forget(now);
        if hotkey !in rate && |rate| >= TABLE {
          return TableFull;
        }
      }
      Spend(hotkey, now, seen);
      answer := Admitted;
    }

    lemma KeptIsPast(h: Hotkey)
      requires Valid()
      ensures h in kept ==> kept[h].at <= clock
    {
    }

    /** The request of a hotkey has been handled. */
    method Done(hotkey: Hotkey)
      requires Valid()
      modifies this`busy
      ensures Valid() && busy == old(busy) - {hotkey}
    {
      busy := busy - {hotkey};
    }
  }

  /** In every stretch of time a hotkey is admitted at most 2 + w / interval times. */
  lemma WindowIsBounded(limiter: RateLimiter, hotkey: Hotkey, i: nat, j: nat)
    requires limiter.Valid() && limiter.interval > 0.0
    requires hotkey in limiter.admissions && i <= j < |limiter.admissions[hotkey]|
    ensures var times := limiter.admissions[hotkey];
            (j - i + 1) as real <= 2.0 + (times[j] - times[i]) / limiter.interval
    ensures 0.0 <= limiter.kept[hotkey].tokens <= CAPACITY
  {
    assert hotkey in limiter.kept;
  }

  /** An idle hotkey is refused exactly when one more admission would exceed 2 + w / interval in some stretch. */
  lemma RefusalIsNeeded(limiter: RateLimiter, hotkey: Hotkey, now: real)
    requires limiter.Valid() && limiter.interval > 0.0 && limiter.clock <= now
    ensures var times := if hotkey in limiter.admissions then limiter.admissions[hotkey] else [];
            OutOfTokens(limiter.rate, hotkey, now, limiter.interval) <==> !Bounded(times + [now], limiter.interval)
  {
    limiter.DecidesAlike(hotkey, now);
    limiter.KeptIsPast(hotkey);
    var times := if hotkey in limiter.admissions then limiter.admissions[hotkey] else [];
    if hotkey in limiter.kept {
      RefusedIffExceeding(times, limiter.kept[hotkey], now, limiter.interval);
    } else {
      FirstAdmissionIsAccounted(now, limiter.interval);
      assert Refill(0.0, limiter.interval) == 0.0 && [] + [now] == [now];
    }
    hide Bounded, Accounted, Refill;
  }
}
