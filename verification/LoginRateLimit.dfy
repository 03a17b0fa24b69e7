/** The login rate limiter: attempts per window, and a block once the maximum is reached. */
module LoginRateLimit {
  import opened Prelude
  import opened RateWindows

  datatype Config = Config(maximumAttempts: nat, windowSeconds: nat, blockSeconds: nat)

  /** The ranges `getLoginRateLimitConfig` enforces. */
  predicate ValidConfig(c: Config)
  {
    2 <= c.maximumAttempts <= 100 && 60 <= c.windowSeconds <= 86400 && 60 <= c.blockSeconds <= 86400
  }

  function WindowMs(c: Config): nat
  {
    c.windowSeconds * 1000
  }

  function BlockMs(c: Config): nat
  {
    c.blockSeconds * 1000
  }

  /** A row of `operator_login_rate_limits`; times are in milliseconds. */
  datatype State = State(attemptCount: nat, windowStartedAt: int, blockedUntil: Option<int>)

  function Normalize(s: State, now: int, c: Config): (r: State)
  {
    if now - s.windowStartedAt >= WindowMs(c) then State(0, now, None) else s
  }

  /** Seconds to wait, rounded up; none when the block is over. */
  function RetryAfterSeconds(s: State, now: int): (r: Option<int>)
    ensures r.Some? <==> s.blockedUntil.Some? && now < s.blockedUntil.value
    ensures r.Some? ==> r.value >= 1 && s.blockedUntil.value <= now + 1000 * r.value < s.blockedUntil.value + 1000
  {
    if s.blockedUntil.None? || s.blockedUntil.value <= now then None
    else
      var seconds := (s.blockedUntil.value - now + 999) / 1000;
      Some(if seconds < 1 then 1 else seconds)
  }

  function RegisterFailure(s: State, now: int, c: Config): (r: State)
  {
    var normalized := Normalize(s, now, c);
    var attemptCount := normalized.attemptCount + 1;
    State(attemptCount, normalized.windowStartedAt,
          if attemptCount >= c.maximumAttempts then Some(now + BlockMs(c)) else None)
  }

  datatype Outcome = Refused(retryAfterSeconds: int) | LetThrough

  /** A login attempt that does not succeed, as `authenticateOperatorOutcome` handles it. */
  function FailedAttempt(s: State, now: int, c: Config): (r: (State, Outcome))
  {
    var normalized := Normalize(s, now, c);
    match RetryAfterSeconds(normalized, now)
    case Some(seconds) => (normalized, Refused(seconds))
    case None => (RegisterFailure(normalized, now, c), LetThrough)
  }

  function After(created: int, times: seq<int>, c: Config): (s: State)
  {
    if times == [] then State(0, created, None)
    else FailedAttempt(After(created, times[..|times| - 1], c), times[|times| - 1], c).0
  }

  /** When the password was actually checked (and wrong). */
  function FailureTimes(created: int, times: seq<int>, c: Config): (failures: seq<int>)
  {
    if times == [] then []
    else
      var before, now := times[..|times| - 1], times[|times| - 1];
      FailureTimes(created, before, c) +
      (if FailedAttempt(After(created, before, c), now, c).1.LetThrough? then [now] else [])
  }

  ghost predicate NonDecreasing(created: int, times: seq<int>)
  {
    && (forall i :: 0 <= i < |times| ==> created <= times[i])
    && (forall i, j :: 0 <= i <= j < |times| ==> times[i] <= times[j])
  }

  /** Failures one window can let through: the maximum, and one more each time a block runs out inside it. */
  function Bound(c: Config): (n: nat)
    requires ValidConfig(c)
  {
    c.maximumAttempts + Gaps(WindowMs(c) - 1, BlockMs(c))
  }

  lemma BoundFact(c: Config, k: nat)
    requires ValidConfig(c) && k * BlockMs(c) <= WindowMs(c) - 1
    ensures c.maximumAttempts + k <= Bound(c)
  {
    DivideBound(k, BlockMs(c), WindowMs(c) - 1);
  }

  lemma PositiveTimes(c: Config)
    requires ValidConfig(c)
    ensures WindowMs(c) >= 1 && BlockMs(c) >= 1 && Bound(c) >= c.maximumAttempts >= 2
  {
    BoundFact(c, 0);
  }

  /** A block is set exactly from the maximum on, and each further failure waited for the last block. */
  ghost predicate BlockRule(s: State, c: Config)
  {
    if s.attemptCount < c.maximumAttempts then s.blockedUntil == None
    else
      && s.blockedUntil.Some?
      && s.windowStartedAt + (s.attemptCount - c.maximumAttempts + 1) * BlockMs(c) <= s.blockedUntil.value
  }

  lemma FailureKeepsRule(s: State, now: int, c: Config)
    requires ValidConfig(c) && BlockRule(s, c) && s.windowStartedAt <= now < s.windowStartedAt + WindowMs(c)
    requires RetryAfterSeconds(s, now).None?
    ensures BlockRule(RegisterFailure(s, now, c), c)
    ensures s.attemptCount < Bound(c)
  {
    PositiveTimes(c);
    hide WindowMs, BlockMs, Bound;
    if s.attemptCount >= c.maximumAttempts {
      var k := s.attemptCount - c.maximumAttempts + 1;
      BoundFact(c, k);
      OneMore(k, BlockMs(c));
    } else {
      OneMore(0, BlockMs(c));
    }
  }

  /** What the row records about the windows so far; a block was set by the last failure of the current one. */
  ghost predicate Reflects(s: State, epochs: seq<Epoch>, c: Config)
  {
    epochs != [] &&
    var last := epochs[|epochs| - 1];
    && last.start == s.windowStartedAt && |last.times| == s.attemptCount
    && s.blockedUntil == if |last.times| < c.maximumAttempts then None else EndOfBlock(last.times, c)
  }

  function EndOfBlock(times: seq<int>, c: Config): (r: Option<int>)
  {
    if times == [] then None else Some(times[|times| - 1] + BlockMs(c))
  }

  /** No failure of the current window is later than `now`. */
  ghost predicate UpTo(epochs: seq<Epoch>, now: int)
  {
    epochs != [] && NoneAfter(epochs[|epochs| - 1].times, now)
  }

  ghost predicate NoneAfter(times: seq<int>, now: int)
  {
    forall k :: 0 <= k < |times| ==> times[k] <= now
  }

  /** What holds between the row and the windows of failures at time `now`. */
  ghost predicate Tracks(s: State, epochs: seq<Epoch>, now: int, c: Config)
    requires ValidConfig(c)
  {
    && BlockRule(s, c) && s.windowStartedAt <= now && Reflects(s, epochs, c) && UpTo(epochs, now)
    && Spaced(epochs, WindowMs(c), Bound(c)) && AllPaced(epochs, c.maximumAttempts, BlockMs(c))
  }

  lemma AttemptEpochs(s: State, epochs: seq<Epoch>, now: int, c: Config) returns (grown: seq<Epoch>)
    requires ValidConfig(c) && Tracks(s, epochs, now, c)
    ensures var (stateAfter, outcome) := FailedAttempt(s, now, c);
      Tracks(stateAfter, grown, now, c) && Times(grown) == Times(epochs) + (if outcome.LetThrough? then [now] else [])
    ensures Anchored(epochs) || epochs == [Epoch(now, [])] ==> Anchored(grown)
  {
    assert epochs != [] && (epochs == [Epoch(now, [])] ==> s.blockedUntil == None);
    hide Tracks, Times, WindowMs, Anchored;
    LetThroughIff(s, now, c);
    if now - s.windowStartedAt >= WindowMs(c) {
      grown := epochs + [Epoch(now, [now])];
      AttemptOpens(s, epochs, now, c);
    } else if RetryAfterSeconds(s, now).Some? {
      grown := epochs;
    } else {
      grown := Grow(epochs, now);
      AttemptGrows(s, epochs, now, c);
    }
  }

  lemma AttemptOpens(s: State, epochs: seq<Epoch>, now: int, c: Config)
    requires ValidConfig(c) && Tracks(s, epochs, now, c) && now - s.windowStartedAt >= WindowMs(c)
    ensures var grown := epochs + [Epoch(now, [now])];
      && Tracks(FailedAttempt(s, now, c).0, grown, now, c) && Times(grown) == Times(epochs) + [now]
      && (Anchored(epochs) || epochs == [Epoch(now, [])] ==> Anchored(grown))
  {
    PositiveTimes(c);
    RollsOver(s, now, c);
    hide Spaced, Times, WindowMs, BlockMs, Bound, AllPaced, Anchored, FailedAttempt;
    OpenEpoch(epochs, now, WindowMs(c), Bound(c));
    PacedOpens(epochs, now, c.maximumAttempts, BlockMs(c));
  }

  lemma RollsOver(s: State, now: int, c: Config)
    requires ValidConfig(c) && now - s.windowStartedAt >= WindowMs(c)
    ensures FailedAttempt(s, now, c) == (State(1, now, None), LetThrough)
  {
    hide WindowMs;
  }

  lemma AttemptGrows(s: State, epochs: seq<Epoch>, now: int, c: Config)
    requires ValidConfig(c) && Tracks(s, epochs, now, c) && now - s.windowStartedAt < WindowMs(c) && RetryAfterSeconds(s, now).None?
    ensures var grown := Grow(epochs, now);
      && Tracks(FailedAttempt(s, now, c).0, grown, now, c) && Times(grown) == Times(epochs) + [now]
      && (Anchored(epochs) || epochs == [Epoch(now, [])] ==> Anchored(grown))
  {
    hide Spaced, Times, WindowMs, BlockMs, Bound, AllPaced, Anchored, BlockRule;
    FailureKeepsRule(s, now, c);
    GrowEpoch(epochs, now, WindowMs(c), Bound(c));
    PacedGrows(epochs, now, c.maximumAttempts, BlockMs(c));
    OpensAnchored(now);
  }

  lemma OpensAnchored(now: int)
    ensures Anchored(Grow([Epoch(now, [])], now))
  {
  }

  lemma FirstWindow(created: int, c: Config)
    requires ValidConfig(c)
    ensures Tracks(State(0, created, None), [Epoch(created, [])], created, c) && Times([Epoch(created, [])]) == []
  {
    hide WindowMs, BlockMs, Bound;
    assert [Epoch(created, [])][1..] == [];
  }

  lemma TracksLater(s: State, epochs: seq<Epoch>, earlier: int, now: int, c: Config)
    requires ValidConfig(c) && Tracks(s, epochs, earlier, c) && earlier <= now
    ensures Tracks(s, epochs, now, c)
  {
    hide WindowMs, BlockMs, Bound, BlockRule, Reflects, Spaced, AllPaced;
  }

  /**
    For any attempts without a success, under a clock that does not run backwards: the failures let
    through fall into windows whose starts are at least `windowSeconds` apart, one window lets through
    at most maximumAttempts + floor((windowMs - 1) / blockMs) of them, and from the maximum on each
    comes at least `blockMs` after the one before.
   */
  lemma {:induction false} FailureWindows(created: int, times: seq<int>, c: Config) returns (epochs: seq<Epoch>)
    requires ValidConfig(c) && NonDecreasing(created, times)
    ensures Times(epochs) == FailureTimes(created, times, c)
    ensures Tracks(After(created, times, c), epochs, if times == [] then created else times[|times| - 1], c)
    ensures if times == [] then epochs == [Epoch(created, [])] else times[0] == created ==> Anchored(epochs)
  {
    hide Tracks, FailedAttempt, Times, Anchored;
    if times == [] {
      epochs := [Epoch(created, [])];
      FirstWindow(created, c);
    } else {
      var n := |times| - 1;
      var before, now := times[..n], times[n];
      var earlier := FailureWindows(created, before, c);
      assert n > 0 ==> before[n - 1] == times[n - 1] <= now && before[0] == times[0];
      TracksLater(After(created, before, c), earlier, if n == 0 then created else times[n - 1], now, c);
      epochs := AttemptEpochs(After(created, before, c), earlier, now, c);
    }
  }

  /**
    The failures of one window never pass the bound. An interval of one window length holds at most two
    bursts of the maximum and one more failure for each block that runs out between them, and one
    fewer if the row was created by the first attempt.
   */
  lemma FailureBound(created: int, times: seq<int>, c: Config, t: int)
    requires ValidConfig(c) && NonDecreasing(created, times)
    ensures After(created, times, c).attemptCount <= Bound(c)
    ensures var failures := CountIn(FailureTimes(created, times, c), t, t + WindowMs(c));
      && failures <= SlidingLimit(c)
      && (times != [] && times[0] == created ==> failures <= SlidingLimit(c) - 1)
  {
    PositiveTimes(c);
    assert WindowMs(c) >= 2;
    hide WindowMs, BlockMs, Bound, FailureTimes, After, CountIn, Times, Spaced, AllPaced, Anchored, PacedLimit;
    var epochs := FailureWindows(created, times, c);
    InBound(epochs, c);
    PacedBound(epochs, WindowMs(c), Bound(c), c.maximumAttempts, BlockMs(c), t);
  }

  function SlidingLimit(c: Config): (n: nat)
    requires ValidConfig(c)
  {
    PacedLimit(WindowMs(c), c.maximumAttempts, BlockMs(c))
  }

  lemma InBound(epochs: seq<Epoch>, c: Config)
    requires ValidConfig(c) && epochs != [] && Spaced(epochs, WindowMs(c), Bound(c))
    ensures |epochs[|epochs| - 1].times| <= Bound(c)
  {
    hide Bound, WindowMs;
    assert Filled(epochs[|epochs| - 1], WindowMs(c), Bound(c));
  }

  // ---------------------------------------------------------------- the bounds are reached

  lemma AttemptSnoc(created: int, before: seq<int>, now: int, c: Config)
    ensures After(created, before + [now], c) == FailedAttempt(After(created, before, c), now, c).0
    ensures FailureTimes(created, before + [now], c) == FailureTimes(created, before, c) +
            (if FailedAttempt(After(created, before, c), now, c).1.LetThrough? then [now] else [])
  {
    hide FailedAttempt;
    var all := before + [now];
    assert all[..|all| - 1] == before;
  }

  /** Attempts at one moment are let through until the maximum is reached. */
  lemma {:induction false} BurstAdmitted(created: int, before: seq<int>, now: int, n: nat, c: Config)
    requires var s := After(created, before, c);
      && s.windowStartedAt <= now < s.windowStartedAt + WindowMs(c)
      && s.attemptCount + n <= c.maximumAttempts && s.blockedUntil == None
    ensures var s, all := After(created, before, c), before + Repeat(now, n);
      && After(created, all, c) == State(s.attemptCount + n, s.windowStartedAt,
                                         if n > 0 && s.attemptCount + n == c.maximumAttempts then Some(now + BlockMs(c)) else None)
      && FailureTimes(created, all, c) == FailureTimes(created, before, c) + Repeat(now, n)
  {
    hide After, FailureTimes, WindowMs, BlockMs;
    if n == 0 {
      assert before + [] == before && FailureTimes(created, before, c) + [] == FailureTimes(created, before, c);
    } else {
      BurstAdmitted(created, before, now, n - 1, c);
      AttemptSnoc(created, before + Repeat(now, n - 1), now, c);
      AppendAssociative(before, Repeat(now, n - 1), [now]);
      AppendAssociative(FailureTimes(created, before, c), Repeat(now, n - 1), [now]);
    }
  }

  /** An attempt each time a block has run out. */
  function Waits(start: int, n: nat, gap: int): (times: seq<int>)
    ensures |times| == n
  {
    if n == 0 then [] else Waits(start, n - 1, gap) + [start + n * gap]
  }

  lemma {:induction false} WaitsOrdered(start: int, n: nat, gap: nat)
    ensures start <= start + n * gap && Ordered(Waits(start, n, gap), start, start + n * gap)
  {
    if n > 0 {
      WaitsOrdered(start, n - 1, gap);
      OneMore(n - 1, gap);
      var last := start + n * gap;
      assert Ordered([last], start + (n - 1) * gap, last);
      OrderedAppend(Waits(start, n - 1, gap), [last], start, start + (n - 1) * gap, last);
    }
  }

  /** After the maximum, attempts that wait for each block to run out are let through. */
  lemma {:induction false} WaitsAdmitted(created: int, before: seq<int>, start: int, n: nat, c: Config)
    requires var s := After(created, before, c);
      && s.attemptCount >= c.maximumAttempts && s.blockedUntil == Some(start + BlockMs(c))
      && s.windowStartedAt <= start && start + n * BlockMs(c) < s.windowStartedAt + WindowMs(c)
    ensures var s, all := After(created, before, c), before + Waits(start, n, BlockMs(c));
      && After(created, all, c) == State(s.attemptCount + n, s.windowStartedAt, Some(start + (n + 1) * BlockMs(c)))
      && FailureTimes(created, all, c) == FailureTimes(created, before, c) + Waits(start, n, BlockMs(c))
  {
    hide After, FailureTimes, WindowMs, BlockMs;
    OneMore(n, BlockMs(c));
    if n == 0 {
      assert before + [] == before && FailureTimes(created, before, c) + [] == FailureTimes(created, before, c);
    } else {
      OneMore(n - 1, BlockMs(c));
      WaitsAdmitted(created, before, start, n - 1, c);
      var earlier, now := Waits(start, n - 1, BlockMs(c)), start + n * BlockMs(c);
      AttemptSnoc(created, before + earlier, now, c);
      AppendAssociative(before, earlier, [now]);
      AppendAssociative(FailureTimes(created, before, c), earlier, [now]);
    }
  }

  ghost predicate Ordered(times: seq<int>, low: int, high: int)
  {
    && (forall i :: 0 <= i < |times| ==> low <= times[i] <= high)
    && (forall i, j :: 0 <= i <= j < |times| ==> times[i] <= times[j])
  }

  lemma OrderedSince(times: seq<int>, low: int, high: int)
    requires Ordered(times, low, high)
    ensures NonDecreasing(low, times)
  {
  }

  lemma OrderedAppend(left: seq<int>, right: seq<int>, low: int, middle: int, high: int)
    requires Ordered(left, low, middle) && Ordered(right, middle, high) && low <= middle <= high
    ensures Ordered(left + right, low, high)
  {
  }

  /** A burst, and then an attempt each time a block has run out. */
  function Crowd(start: int, n: nat, k: nat, gap: int): (times: seq<int>)
  {
    Repeat(start, n) + Waits(start, k, gap)
  }

  lemma CrowdOrdered(start: int, n: nat, k: nat, gap: nat)
    ensures |Crowd(start, n, k, gap)| == n + k && Ordered(Crowd(start, n, k, gap), start, start + k * gap)
  {
    WaitsOrdered(start, k, gap);
    assert Ordered(Repeat(start, n), start, start);
    hide Ordered, Repeat, Waits;
    OrderedAppend(Repeat(start, n), Waits(start, k, gap), start, start, start + k * gap);
  }

  /** A burst that reaches the maximum, and attempts over the rest of the window. */
  lemma CrowdAdmitted(created: int, before: seq<int>, start: int, n: nat, span: nat, c: Config)
    requires var s := After(created, before, c);
      && s.attemptCount + n == c.maximumAttempts && n > 0 && s.blockedUntil == None
      && s.windowStartedAt <= start && start + span < s.windowStartedAt + WindowMs(c)
    requires BlockMs(c) >= 1
    ensures var k, crowd := Gaps(span, BlockMs(c)), Crowd(start, n, Gaps(span, BlockMs(c)), BlockMs(c));
      && After(created, before + crowd, c).attemptCount == c.maximumAttempts + k
      && After(created, before + crowd, c).windowStartedAt == After(created, before, c).windowStartedAt
      && FailureTimes(created, before + crowd, c) == FailureTimes(created, before, c) + crowd
  {
    var k := Gaps(span, BlockMs(c));
    WholeGaps(span, BlockMs(c));
    hide WindowMs, BlockMs, After, FailureTimes, Repeat, Waits, Gaps;
    var burst, waits := Repeat(start, n), Waits(start, k, BlockMs(c));
    BurstAdmitted(created, before, start, n, c);
    WaitsAdmitted(created, before + burst, start, k, c);
    AppendAssociative(before, burst, waits);
    AppendAssociative(FailureTimes(created, before, c), burst, waits);
  }

  /** A burst as the window opens, and a failure each time a block has run out in it. */
  function FullWindow(created: int, c: Config): (times: seq<int>)
    requires ValidConfig(c)
  {
    Crowd(created, c.maximumAttempts, Gaps(WindowMs(c) - 1, BlockMs(c)), BlockMs(c))
  }

  /** The bound on the failures of one window is reached under every configuration. */
  lemma WindowBoundReached(created: int, c: Config)
    requires ValidConfig(c)
    ensures NonDecreasing(created, FullWindow(created, c)) && FailureTimes(created, FullWindow(created, c), c) == FullWindow(created, c)
    ensures After(created, FullWindow(created, c), c).attemptCount == Bound(c)
  {
    hide FullWindow, After, FailureTimes, NonDecreasing, Bound;
    FullWindowAdmitted(created, c);
    FullWindowOrdered(created, c);
  }

  lemma FullWindowAdmitted(created: int, c: Config)
    requires ValidConfig(c)
    ensures FailureTimes(created, FullWindow(created, c), c) == FullWindow(created, c)
    ensures After(created, FullWindow(created, c), c).attemptCount == Bound(c)
  {
    PositiveTimes(c);
    NothingYet(created, c);
    hide WindowMs, BlockMs, Gaps, After, FailureTimes, Crowd;
    CrowdAdmitted(created, [], created, c.maximumAttempts, WindowMs(c) - 1, c);
    assert [] + FullWindow(created, c) == FullWindow(created, c);
  }

  lemma FullWindowOrdered(created: int, c: Config)
    requires ValidConfig(c)
    ensures NonDecreasing(created, FullWindow(created, c))
  {
    PositiveTimes(c);
    hide WindowMs, BlockMs, Gaps, Crowd, Ordered, NonDecreasing;
    var k := Gaps(WindowMs(c) - 1, BlockMs(c));
    CrowdOrdered(created, c.maximumAttempts, k, BlockMs(c));
    OrderedSince(FullWindow(created, c), created, created + k * BlockMs(c));
  }

  lemma NothingYet(created: int, c: Config)
    ensures After(created, [], c) == State(0, created, None) && FailureTimes(created, [], c) == []
  {
  }

  /**
    A burst just after the window opens, a failure each time a block has run out, and a burst as the
    next window opens; `first` tells whether an attempt opens the first window.
   */
  function Busy(created: int, first: bool, c: Config): (times: seq<int>)
    requires ValidConfig(c)
  {
    Lead(created, first) + BusyCrowd(created, first, c) + NextBurst(created + WindowMs(c), c)
  }

  function Lead(created: int, first: bool): (times: seq<int>)
    ensures |times| == One(first)
  {
    if first then [created] else []
  }

  function BusyCrowd(created: int, first: bool, c: Config): (times: seq<int>)
    requires ValidConfig(c)
  {
    Crowd(created + 1, c.maximumAttempts - One(first), Gaps(WindowMs(c) - 2, BlockMs(c)), BlockMs(c))
  }

  function NextBurst(now: int, c: Config): (times: seq<int>)
    requires ValidConfig(c)
  {
    [now] + Repeat(now, c.maximumAttempts - 1)
  }

  lemma LeadAdmitted(created: int, first: bool, c: Config)
    requires ValidConfig(c)
    ensures After(created, Lead(created, first), c) == State(One(first), created, None)
    ensures FailureTimes(created, Lead(created, first), c) == Lead(created, first)
  {
    PositiveTimes(c);
    NothingYet(created, c);
    if first {
      AttemptSnoc(created, [], created, c);
      hide WindowMs, BlockMs, After, FailureTimes;
      assert [] + [created] == [created];
    }
  }

  lemma NextBurstAdmitted(created: int, before: seq<int>, now: int, c: Config)
    requires ValidConfig(c) && After(created, before, c).windowStartedAt + WindowMs(c) <= now
    ensures FailureTimes(created, before + NextBurst(now, c), c) == FailureTimes(created, before, c) + NextBurst(now, c)
  {
    PositiveTimes(c);
    RollsOver(After(created, before, c), now, c);
    hide WindowMs, BlockMs, Repeat, FailureTimes, After, FailedAttempt;
    AttemptSnoc(created, before, now, c);
    BurstAdmitted(created, before + [now], now, c.maximumAttempts - 1, c);
    AppendAssociative(before, [now], Repeat(now, c.maximumAttempts - 1));
    AppendAssociative(FailureTimes(created, before, c), [now], Repeat(now, c.maximumAttempts - 1));
  }

  lemma BusyFailures(created: int, first: bool, c: Config)
    requires ValidConfig(c)
    ensures FailureTimes(created, Busy(created, first, c), c) == Busy(created, first, c)
  {
    PositiveTimes(c);
    hide WindowMs, FailureTimes, After, Lead, BusyCrowd, NextBurst;
    LeadAdmitted(created, first, c);
    BusyCrowdAdmitted(created, first, c);
    NextBurstAdmitted(created, Lead(created, first) + BusyCrowd(created, first, c), created + WindowMs(c), c);
  }

  lemma BusyCrowdAdmitted(created: int, first: bool, c: Config)
    requires ValidConfig(c)
    ensures var times := Lead(created, first) + BusyCrowd(created, first, c);
      After(created, times, c).windowStartedAt == created && FailureTimes(created, times, c) == times
  {
    PositiveTimes(c);
    assert WindowMs(c) >= 2;
    hide WindowMs, BlockMs, Gaps, FailureTimes, After, Lead, Crowd;
    LeadAdmitted(created, first, c);
    CrowdAdmitted(created, Lead(created, first), created + 1, c.maximumAttempts - One(first), WindowMs(c) - 2, c);
  }

  /** The three parts of `Busy`, each in order and after the one before. */
  lemma BusyParts(created: int, first: bool, c: Config)
    requires ValidConfig(c)
    ensures Ordered(Lead(created, first), created, created)
    ensures Ordered(BusyCrowd(created, first, c), created + 1, created + WindowMs(c) - 1)
    ensures Ordered(NextBurst(created + WindowMs(c), c), created + WindowMs(c), created + WindowMs(c))
    ensures One(first) + |BusyCrowd(created, first, c)| + |NextBurst(created + WindowMs(c), c)| == SlidingLimit(c)
  {
    PositiveTimes(c);
    assert WindowMs(c) >= 2;
    var k := Gaps(WindowMs(c) - 2, BlockMs(c));
    WholeGaps(WindowMs(c) - 2, BlockMs(c));
    hide WindowMs, BlockMs, Gaps, Crowd, Repeat;
    CrowdOrdered(created + 1, c.maximumAttempts - One(first), k, BlockMs(c));
  }

  /**
    The bound on an interval of one window length is reached under every configuration, whether the
    row is older than the first attempt or was created by it.
   */
  lemma SlidingLimitReached(created: int, first: bool, c: Config)
    requires ValidConfig(c)
    ensures var times := Busy(created, first, c);
      && NonDecreasing(created, times) && (first ==> times != [] && times[0] == created)
      && CountIn(FailureTimes(created, times, c), created + 1, created + 1 + WindowMs(c)) == SlidingLimit(c) - One(first)
  {
    hide Busy, WindowMs, SlidingLimit, FailureTimes, CountIn, NonDecreasing;
    BusyFailures(created, first, c);
    BusyInTurn(created, first, c);
  }

  lemma BusyInTurn(created: int, first: bool, c: Config)
    requires ValidConfig(c)
    ensures var times := Busy(created, first, c);
      && NonDecreasing(created, times) && (first ==> times != [] && times[0] == created)
      && CountIn(times, created + 1, created + 1 + WindowMs(c)) == SlidingLimit(c) - One(first)
  {
    PositiveTimes(c);
    assert WindowMs(c) >= 2;
    hide WindowMs, BusyCrowd, NextBurst, SlidingLimit, CountIn, Ordered, NonDecreasing;
    BusyParts(created, first, c);
    InTurn(Lead(created, first), BusyCrowd(created, first, c), NextBurst(created + WindowMs(c), c), created, WindowMs(c));
  }

  lemma InTurn(lead: seq<int>, crowd: seq<int>, next: seq<int>, created: int, window: nat)
    requires Ordered(lead, created, created) && Ordered(crowd, created + 1, created + window - 1)
    requires Ordered(next, created + window, created + window) && window >= 2
    ensures NonDecreasing(created, lead + crowd + next)
    ensures CountIn(lead + crowd + next, created + 1, created + 1 + window) == |crowd| + |next|
  {
    var lo, hi := created + 1, created + 1 + window;
    assert Ordered(crowd, created, created + window) && Ordered(lead + crowd, created, created + window);
    hide CountIn;
    CountAppend(lead + crowd, next, lo, hi);
    CountAppend(lead, crowd, lo, hi);
    CountNone(lead, lo, hi);
    CountAll(crowd, lo, hi);
    CountAll(next, lo, hi);
    OrderedAppend(lead + crowd, next, created, created + window, created + window);
  }

  // ---------------------------------------------------------------- how long a block lasts

  /** Exactly when an attempt gets through: the window has rolled over, or no block is running. */
  lemma LetThroughIff(s: State, now: int, c: Config)
    ensures FailedAttempt(s, now, c).1.LetThrough? <==>
      now - s.windowStartedAt >= 1000 * c.windowSeconds || s.blockedUntil.None? || s.blockedUntil.value <= now
  {
  }

  /** A run of attempts without success that goes on from a given row. */
  ghost function Continue(s: State, times: seq<int>, c: Config): (r: State)
  {
    if times == [] then s else FailedAttempt(Continue(s, times[..|times| - 1], c), times[|times| - 1], c).0
  }

  ghost predicate AllRefused(s: State, times: seq<int>, c: Config)
  {
    forall i :: 0 <= i < |times| ==> FailedAttempt(Continue(s, times[..i], c), times[i], c).1.Refused?
  }

  /** Attempts made while the block set at `t` should last. */
  ghost predicate DuringBlock(times: seq<int>, t: int, c: Config)
  {
    && (forall i :: 0 <= i < |times| ==> t <= times[i] < t + BlockMs(c))
    && (forall i, j :: 0 <= i <= j < |times| ==> times[i] <= times[j])
  }

  /** A running block that ends no later than its window. */
  predicate Blocks(s: State, t: int, c: Config)
  {
    s.blockedUntil == Some(t + BlockMs(c)) && t + BlockMs(c) <= s.windowStartedAt + WindowMs(c)
  }

  lemma RefusedOnce(s: State, t: int, now: int, c: Config)
    requires Blocks(s, t, c) && t <= now < t + BlockMs(c)
    ensures FailedAttempt(s, now, c).0 == s && FailedAttempt(s, now, c).1.Refused?
  {
  }

  /** Inside the window refused attempts leave the row as it is. */
  lemma {:induction false} RefusedLeaveRow(s: State, times: seq<int>, t: int, c: Config)
    requires Blocks(s, t, c) && forall i :: 0 <= i < |times| ==> t <= times[i] < t + BlockMs(c)
    ensures Continue(s, times, c) == s
  {
    hide BlockMs, Blocks, FailedAttempt;
    if times != [] {
      var n := |times| - 1;
      RefusedLeaveRow(s, times[..n], t, c);
      RefusedOnce(s, t, times[n], c);
    }
  }

  lemma RefusedThroughout(s: State, times: seq<int>, t: int, c: Config)
    requires Blocks(s, t, c) && DuringBlock(times, t, c)
    ensures AllRefused(s, times, c)
  {
    hide BlockMs, Blocks, FailedAttempt, Continue;
    forall i | 0 <= i < |times| ensures FailedAttempt(Continue(s, times[..i], c), times[i], c).1.Refused? {
      RefusedLeaveRow(s, times[..i], t, c);
      RefusedOnce(s, t, times[i], c);
    }
  }

  /**
    A block lasts its full time, whatever attempts are made meanwhile, if and only if it ends no
    later than its window. `s` is the row before the failure at `t` that sets the block.
   */
  lemma BlockLastsIff(s: State, t: int, c: Config)
    requires ValidConfig(c) && FailedAttempt(s, t, c).1.LetThrough? && FailedAttempt(s, t, c).0.blockedUntil.Some?
    ensures var blocked := FailedAttempt(s, t, c).0;
      && blocked.blockedUntil == Some(t + 1000 * c.blockSeconds)
      && ((forall times :: DuringBlock(times, t, c) ==> AllRefused(blocked, times, c)) <==>
          t + BlockMs(c) <= blocked.windowStartedAt + WindowMs(c))
  {
    PositiveTimes(c);
    hide WindowMs, BlockMs;
    var blocked := FailedAttempt(s, t, c).0;
    var rollover := blocked.windowStartedAt + WindowMs(c);
    if t + BlockMs(c) <= rollover {
      forall times | DuringBlock(times, t, c) ensures AllRefused(blocked, times, c) {
        RefusedThroughout(blocked, times, t, c);
      }
    } else {
      var times := [if rollover < t then t else rollover];
      assert DuringBlock(times, t, c);
      assert times[..0] == [] && Continue(blocked, [], c) == blocked;
      LetThroughIff(blocked, times[0], c);
      assert !AllRefused(blocked, times, c);
    }
  }

  /** All but one of the allowed failures at once, and the last just before the window rolls over. */
  function EarlyAttempts(created: int, c: Config): (times: seq<int>)
    requires ValidConfig(c)
  {
    Repeat(created, c.maximumAttempts - 1) + [created + WindowMs(c) - 1]
  }

  /**
    Under every configuration some attempts show it: the block set one millisecond before the window
    rolls over still has all but one millisecond to run, and the next attempt is let through.
   */
  lemma BlockEndsWithWindow(created: int, c: Config)
    requires ValidConfig(c)
    ensures var times, now := EarlyAttempts(created, c), created + WindowMs(c);
      && NonDecreasing(created, times + [now])
      && After(created, times, c).blockedUntil == Some(now - 1 + BlockMs(c)) && now < now - 1 + BlockMs(c)
      && FailedAttempt(After(created, times, c), now, c).1.LetThrough?
  {
    PositiveTimes(c);
    assert BlockMs(c) >= 2;
    hide WindowMs, BlockMs, NonDecreasing, After, FailedAttempt;
    EarlyOrdered(created, c);
    EarlyBlocked(created, c);
    var now := created + WindowMs(c);
    LetThroughIff(After(created, EarlyAttempts(created, c), c), now, c);
  }

  lemma EarlyOrdered(created: int, c: Config)
    requires ValidConfig(c)
    ensures NonDecreasing(created, EarlyAttempts(created, c) + [created + WindowMs(c)])
  {
    PositiveTimes(c);
    hide WindowMs, Repeat;
    var all := EarlyAttempts(created, c) + [created + WindowMs(c)];
    assert forall i :: 0 <= i < |all| - 2 ==> all[i] == created;
  }

  lemma EarlyBlocked(created: int, c: Config)
    requires ValidConfig(c)
    ensures After(created, EarlyAttempts(created, c), c) == State(c.maximumAttempts, created, Some(created + WindowMs(c) - 1 + BlockMs(c)))
  {
    PositiveTimes(c);
    hide WindowMs, BlockMs, Repeat, After;
    FirstBurst(created, c.maximumAttempts - 1, c);
    LastFailure(created, Repeat(created, c.maximumAttempts - 1), created + WindowMs(c) - 1, c);
  }

  /** The failure that reaches the maximum. */
  lemma LastFailure(created: int, before: seq<int>, now: int, c: Config)
    requires var s := After(created, before, c);
      && s.windowStartedAt <= now < s.windowStartedAt + WindowMs(c)
      && s.attemptCount + 1 == c.maximumAttempts && s.blockedUntil == None
    ensures After(created, before + [now], c) == State(c.maximumAttempts, After(created, before, c).windowStartedAt, Some(now + BlockMs(c)))
  {
    assert Repeat(now, 1) == [now];
    hide WindowMs, BlockMs, Repeat, After, FailureTimes;
    BurstAdmitted(created, before, now, 1, c);
  }

  lemma FirstBurst(created: int, n: nat, c: Config)
    requires ValidConfig(c) && n < c.maximumAttempts
    ensures After(created, Repeat(created, n), c) == State(n, created, None)
  {
    PositiveTimes(c);
    NothingYet(created, c);
    hide WindowMs, BlockMs, Repeat, After, FailureTimes;
    assert [] + Repeat(created, n) == Repeat(created, n);
    BurstAdmitted(created, [], created, n, c);
  }
}
