/** `enforceRateLimit`: fixed windows per key, kept in a process-wide map. */
module HttpRateLimit {
  import opened Prelude
  import opened RateWindows

  datatype Bucket = Bucket(count: nat, resetAt: int)

  datatype Request = Request(key: string, now: int)

  datatype Decision = Admitted | RateLimited(retryAfterSeconds: int)

  /** The bucket a request leaves behind, and whether it was admitted. */
  function Decide(bucket: Option<Bucket>, now: int, limit: nat, window: nat): (r: (Bucket, Decision))
  {
    match bucket
    case None => (Bucket(1, now + window), Admitted)
    case Some(b) =>
      if b.resetAt <= now then (Bucket(1, now + window), Admitted)
      else if b.count >= limit then (b, RateLimited((b.resetAt - now + 999) / 1000))
      else (b.(count := b.count + 1), Admitted)
  }

  function Get(buckets: map<string, Bucket>, key: string): Option<Bucket>
  {
    if key in buckets then Some(buckets[key]) else None
  }

  /** The map after a sequence of requests. */
  function After(requests: seq<Request>, limit: nat, window: nat): (buckets: map<string, Bucket>)
  {
    if requests == [] then map[]
    else
      var r, before := requests[|requests| - 1], After(requests[..|requests| - 1], limit, window);
      before[r.key := Decide(Get(before, r.key), r.now, limit, window).0]
  }

  /** When the requests of one key were admitted. */
  function AdmittedTimes(requests: seq<Request>, key: string, limit: nat, window: nat): (times: seq<int>)
  {
    if requests == [] then []
    else
      var r, before := requests[|requests| - 1], requests[..|requests| - 1];
      AdmittedTimes(before, key, limit, window) +
      (if r.key == key && Decide(Get(After(before, limit, window), key), r.now, limit, window).1.Admitted? then [r.now] else [])
  }

  ghost predicate NonDecreasing(requests: seq<Request>)
  {
    forall i, j :: 0 <= i <= j < |requests| ==> requests[i].now <= requests[j].now
  }

  /** What the bucket of a key records about the windows so far. */
  ghost predicate Reflects(bucket: Option<Bucket>, epochs: seq<Epoch>, window: int)
  {
    if bucket.None? then epochs == []
    else
      epochs != [] &&
      var last := epochs[|epochs| - 1];
      |last.times| == bucket.value.count && last.start + window == bucket.value.resetAt
  }

  /** One admission or refusal extends the windows by at most one time, or opens a new window. */
  lemma DecideEpochs(bucket: Option<Bucket>, epochs: seq<Epoch>, now: int, limit: nat, window: nat) returns (grown: seq<Epoch>)
    requires limit >= 1 && window >= 1
    requires Reflects(bucket, epochs, window) && Spaced(epochs, window, limit) && Anchored(epochs)
    requires epochs != [] ==> epochs[|epochs| - 1].start <= now
    ensures Spaced(grown, window, limit) && Anchored(grown)
    ensures Reflects(Some(Decide(bucket, now, limit, window).0), grown, window)
    ensures grown[|grown| - 1].start <= now
    ensures Times(grown) == Times(epochs) + if Decide(bucket, now, limit, window).1.Admitted? then [now] else []
  {
    hide Spaced, Anchored, Times;
    if bucket.None? || bucket.value.resetAt <= now {
      grown := epochs + [Epoch(now, [now])];
      OpenEpoch(epochs, now, window, limit);
    } else if bucket.value.count >= limit {
      grown := epochs;
    } else {
      grown := Grow(epochs, now);
      GrowEpoch(epochs, now, window, limit);
    }
  }

  /** The admissions of a key form windows a full window apart, each with at most `limit` of them. */
  lemma {:induction false} AdmissionWindows(requests: seq<Request>, key: string, limit: nat, window: nat)
    returns (epochs: seq<Epoch>)
    requires limit >= 1 && window >= 1 && NonDecreasing(requests)
    ensures Times(epochs) == AdmittedTimes(requests, key, limit, window)
    ensures Spaced(epochs, window, limit) && Anchored(epochs)
    ensures Reflects(Get(After(requests, limit, window), key), epochs, window)
    ensures epochs != [] ==> requests != [] && epochs[|epochs| - 1].start <= requests[|requests| - 1].now
  {
    hide Decide, Spaced, Anchored, Reflects;
    if requests == [] {
      epochs := [];
      EmptyWindows(window, limit);
    } else {
      var n := |requests| - 1;
      var before, r := requests[..n], requests[n];
      var earlier := AdmissionWindows(before, key, limit, window);
      assert earlier != [] ==> before[n - 1].now <= r.now;
      if r.key == key {
        epochs := DecideEpochs(Get(After(before, limit, window), key), earlier, r.now, limit, window);
      } else {
        epochs := earlier;
      }
    }
  }

  lemma EmptyWindows(window: nat, limit: nat)
    ensures Spaced([], window, limit) && Anchored([]) && Reflects(None, [], window) && Times([]) == []
  {
  }

  /**
    The bound. For any requests under a clock that does not run backwards, at most `2 * limit - 1`
    requests of one key are admitted in any half-open interval as long as the window.
   */
  lemma SlidingWindowBound(requests: seq<Request>, key: string, limit: nat, window: nat, t: int)
    requires limit >= 1 && window >= 1 && NonDecreasing(requests)
    ensures CountIn(AdmittedTimes(requests, key, limit, window), t, t + window) <= 2 * limit - 1
  {
    var epochs := AdmissionWindows(requests, key, limit, window);
    SlidingBound(epochs, window, limit, t);
  }

  // ---------------------------------------------------------------- the bound is reached

  lemma RequestSnoc(before: seq<Request>, r: Request, limit: nat, window: nat)
    ensures var bucket := Get(After(before, limit, window), r.key);
      && After(before + [r], limit, window) == After(before, limit, window)[r.key := Decide(bucket, r.now, limit, window).0]
      && AdmittedTimes(before + [r], r.key, limit, window) == AdmittedTimes(before, r.key, limit, window) +
           (if Decide(bucket, r.now, limit, window).1.Admitted? then [r.now] else [])
  {
    assert (before + [r])[..|before + [r]| - 1] == before;
  }

  /** Repeating a request inside an open window admits it until the bucket is full. */
  lemma {:induction false} FillBucket(before: seq<Request>, bucket: Bucket, key: string, now: int, n: nat, limit: nat, window: nat)
    requires Get(After(before, limit, window), key) == Some(bucket)
    requires now < bucket.resetAt && bucket.count + n <= limit
    ensures var all := before + Repeat(Request(key, now), n);
      && Get(After(all, limit, window), key) == Some(Bucket(bucket.count + n, bucket.resetAt))
      && AdmittedTimes(all, key, limit, window) == AdmittedTimes(before, key, limit, window) + Repeat(now, n)
  {
    hide After, AdmittedTimes;
    if n == 0 {
      assert before + [] == before;
    } else {
      FillBucket(before, bucket, key, now, n - 1, limit, window);
      var shorter := before + Repeat(Request(key, now), n - 1);
      RequestSnoc(shorter, Request(key, now), limit, window);
      AppendAssociative(before, Repeat(Request(key, now), n - 1), [Request(key, now)]);
      AppendAssociative(AdmittedTimes(before, key, limit, window), Repeat(now, n - 1), [now]);
    }
  }

  /** A burst at the end of one window followed by a burst at the start of the next. */
  function Bursts(key: string, limit: nat, window: nat): (requests: seq<Request>)
    requires limit >= 1 && window >= 2
  {
    [Request(key, 0)] + Repeat(Request(key, window - 1), limit - 1) +
    [Request(key, window)] + Repeat(Request(key, window), limit - 1)
  }

  function BurstTimes(limit: nat, window: nat): (times: seq<int>)
    requires limit >= 1 && window >= 2
  {
    [0] + Repeat(window - 1, limit - 1) + [window] + Repeat(window, limit - 1)
  }

  lemma FirstBurst(key: string, limit: nat, window: nat)
    requires limit >= 1 && window >= 2
    ensures var burst := [Request(key, 0)] + Repeat(Request(key, window - 1), limit - 1);
      && Get(After(burst, limit, window), key) == Some(Bucket(limit, window))
      && AdmittedTimes(burst, key, limit, window) == [0] + Repeat(window - 1, limit - 1)
  {
    FirstRequest(Request(key, 0), limit, window);
    hide After, AdmittedTimes, Repeat;
    FillBucket([Request(key, 0)], Bucket(1, window), key, window - 1, limit - 1, limit, window);
  }

  lemma FirstRequest(r: Request, limit: nat, window: nat)
    ensures Get(After([r], limit, window), r.key) == Some(Bucket(1, r.now + window))
    ensures AdmittedTimes([r], r.key, limit, window) == [r.now]
  {
    assert [r][..0] == [];
    assert After([], limit, window) == map[];
    assert AdmittedTimes([], r.key, limit, window) == [];
  }

  lemma BurstsAdmitted(key: string, limit: nat, window: nat)
    requires limit >= 1 && window >= 2
    ensures AdmittedTimes(Bursts(key, limit, window), key, limit, window) == BurstTimes(limit, window)
  {
    FirstBurst(key, limit, window);
    var burst := [Request(key, 0)] + Repeat(Request(key, window - 1), limit - 1);
    hide After, AdmittedTimes, Repeat;
    RequestSnoc(burst, Request(key, window), limit, window);
    FillBucket(burst + [Request(key, window)], Bucket(1, 2 * window), key, window, limit - 1, limit, window);
  }

  lemma BurstsOrdered(key: string, limit: nat, window: nat)
    requires limit >= 1 && window >= 2
    ensures NonDecreasing(Bursts(key, limit, window))
  {
    hide Repeat;
    var requests := Bursts(key, limit, window);
    assert forall i :: 0 <= i < |requests| ==>
      requests[i].now == if i == 0 then 0 else if i < limit then window - 1 else window;
  }

  /** `2 * limit - 1` cannot be improved: the two bursts reach it. */
  lemma BoundIsReached(key: string, limit: nat, window: nat)
    requires limit >= 1 && window >= 2
    ensures NonDecreasing(Bursts(key, limit, window))
    ensures CountIn(AdmittedTimes(Bursts(key, limit, window), key, limit, window), window - 1, 2 * window - 1) == 2 * limit - 1
  {
    BurstsAdmitted(key, limit, window);
    BurstsOrdered(key, limit, window);
    hide AdmittedTimes, CountIn, Repeat, NonDecreasing, Bursts;
    var late := Repeat(window - 1, limit - 1) + [window] + Repeat(window, limit - 1);
    assert BurstTimes(limit, window) == [0] + late;
    CountAppend([0], late, window - 1, 2 * window - 1);
    CountNone([0], window - 1, 2 * window - 1);
    CountAll(late, window - 1, 2 * window - 1);
  }

  // ---------------------------------------------------------------- keys

  function OnlyKey(requests: seq<Request>, key: string): (rs: seq<Request>)
  {
    if requests == [] then []
    else
      var r := requests[|requests| - 1];
      OnlyKey(requests[..|requests| - 1], key) + (if r.key == key then [r] else [])
  }

  /** Keys do not affect each other: a key fares as if only its own requests had been made. */
  lemma {:induction false} KeysIndependent(requests: seq<Request>, key: string, limit: nat, window: nat)
    ensures Get(After(requests, limit, window), key) == Get(After(OnlyKey(requests, key), limit, window), key)
    ensures AdmittedTimes(requests, key, limit, window) == AdmittedTimes(OnlyKey(requests, key), key, limit, window)
  {
    if requests != [] {
      hide Decide;
      var n := |requests| - 1;
      var before, r := requests[..n], requests[n];
      KeysIndependent(before, key, limit, window);
      var own := OnlyKey(before, key);
      if r.key == key {
        assert OnlyKey(requests, key) == own + [r];
        assert (own + [r])[..|own + [r]| - 1] == own;
      } else {
        assert OnlyKey(requests, key) == own;
      }
    }
  }

  // ---------------------------------------------------------------- the limiter

  /** The process-wide map `rateBuckets`, for requests that share one limit and window. */
  class RateLimiter {
    const limit: nat
    const windowMs: nat
    var rateBuckets: map<string, Bucket>
    ghost var requests: seq<Request>

    ghost predicate Valid()
      reads this
    {
      rateBuckets == After(requests, limit, windowMs)
    }

    constructor (limit: nat, windowMs: nat)
      ensures Valid() && requests == [] && this.limit == limit && this.windowMs == windowMs
    {
      this.limit, this.windowMs := limit, windowMs;
      rateBuckets := map[];
      requests := [];
    }

    /** A refused request leaves the map as it was and says how long to wait. */
    method Enforce(key: string, now: int) returns (decision: Decision)
      requires Valid()
      modifies this`rateBuckets, this`requests
      ensures Valid() && requests == old(requests) + [Request(key, now)]
      ensures decision == Decide(Get(old(rateBuckets), key), now, limit, windowMs).1
      ensures AdmittedTimes(requests, key, limit, windowMs) ==
        AdmittedTimes(old(requests), key, limit, windowMs) + (if decision.Admitted? then [now] else [])
      ensures decision.RateLimited? ==>
        && rateBuckets == old(rateBuckets)
        && now < rateBuckets[key].resetAt <= now + 1000 * decision.retryAfterSeconds < rateBuckets[key].resetAt + 1000
    {
      ghost var before := requests;
      requests := requests + [Request(key, now)];
      assert requests[..|requests| - 1] == before;
      if key !in rateBuckets || rateBuckets[key].resetAt <= now {
        rateBuckets := rateBuckets[key := Bucket(1, now + windowMs)];
        return Admitted;
      }
      var bucket := rateBuckets[key];
      if bucket.count >= limit {
        assert rateBuckets[key := bucket] == rateBuckets;
        return RateLimited((bucket.resetAt - now + 999) / 1000);
      }
      rateBuckets := rateBuckets[key := bucket.(count := bucket.count + 1)];
      return Admitted;
    }
  }
}
