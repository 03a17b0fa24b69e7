/** Admissions grouped into consecutive fixed windows, and what that says about sliding intervals. */
module RateWindows {
  import opened Prelude

  /** One window: where it starts and the times admitted in it. */
  datatype Epoch = Epoch(start: int, times: seq<int>)

  function Times(epochs: seq<Epoch>): (times: seq<int>)
  {
    if epochs == [] then [] else epochs[0].times + Times(epochs[1..])
  }

  lemma {:induction false} TimesAppend(left: seq<Epoch>, right: seq<Epoch>)
    ensures Times(left + right) == Times(left) + Times(right)
  {
    if left == [] {
      assert left + right == right;
    } else {
      TimesAppend(left[1..], right);
      assert (left + right)[0] == left[0] && (left + right)[1..] == left[1..] + right;
      AppendAssociative(left[0].times, Times(left[1..]), Times(right));
    }
  }

  /** How many of the times fall in the half-open interval [lo, hi). */
  function CountIn(times: seq<int>, lo: int, hi: int): (n: nat)
    ensures n <= |times|
  {
    if times == [] then 0
    else (if lo <= times[0] < hi then 1 else 0) + CountIn(times[1..], lo, hi)
  }

  lemma {:induction false} CountAppend(left: seq<int>, right: seq<int>, lo: int, hi: int)
    ensures CountIn(left + right, lo, hi) == CountIn(left, lo, hi) + CountIn(right, lo, hi)
  {
    if left == [] {
      assert left + right == right;
    } else {
      CountAppend(left[1..], right, lo, hi);
      assert (left + right)[0] == left[0] && (left + right)[1..] == left[1..] + right;
    }
  }

  lemma {:induction false} CountNone(times: seq<int>, lo: int, hi: int)
    requires forall i :: 0 <= i < |times| ==> times[i] < lo || hi <= times[i]
    ensures CountIn(times, lo, hi) == 0
  {
    if times != [] {
      CountNone(times[1..], lo, hi);
    }
  }

  /** Times lie in their window, a window holds at most `limit` of them, and starts are a window apart. */
  ghost predicate Spaced(epochs: seq<Epoch>, window: int, limit: nat)
  {
    && (forall i :: 0 <= i < |epochs| ==> Filled(epochs[i], window, limit))
    && (forall i, j :: 0 <= i && j == i + 1 && j < |epochs| ==> epochs[i].start + window <= epochs[j].start)
  }

  ghost predicate Filled(e: Epoch, window: int, limit: nat)
  {
    |e.times| <= limit && forall k :: 0 <= k < |e.times| ==> e.start <= e.times[k] < e.start + window
  }

  /** The window was opened by its first admission. */
  ghost predicate Anchored(epochs: seq<Epoch>)
  {
    forall i :: 0 <= i < |epochs| ==> epochs[i].times != [] && epochs[i].times[0] == epochs[i].start
  }

  lemma {:induction false} LateEpochs(epochs: seq<Epoch>, window: int, limit: nat, lo: int, hi: int)
    requires Spaced(epochs, window, limit) && window >= 1 && (epochs != [] ==> hi <= epochs[0].start)
    ensures CountIn(Times(epochs), lo, hi) == 0
  {
    if epochs != [] {
      assert Filled(epochs[0], window, limit);
      CountNone(epochs[0].times, lo, hi);
      LateEpochs(epochs[1..], window, limit, lo, hi);
      CountAppend(epochs[0].times, Times(epochs[1..]), lo, hi);
    }
  }

  lemma CountRest(e: Epoch, lo: int, hi: int)
    requires e.times != [] && e.times[0] < lo
    ensures CountIn(e.times, lo, hi) <= |e.times| - 1
  {
  }

  /** An interval of one window length that begins no later than the first window meets only that one. */
  lemma FirstEpochOnly(epochs: seq<Epoch>, window: int, limit: nat, t: int)
    requires Spaced(epochs, window, limit) && window >= 1 && (epochs != [] ==> t <= epochs[0].start)
    ensures CountIn(Times(epochs), t, t + window) <= limit
  {
    if epochs != [] {
      FirstAndRest(epochs, window, limit);
      hide Spaced, CountIn, Times, Filled;
      CountAppend(epochs[0].times, Times(epochs[1..]), t, t + window);
      LateEpochs(epochs[1..], window, limit, t, t + window);
    }
  }

  /**
    A sliding interval as long as the window meets at most two windows, and when each window is
    opened by its own first admission it cannot contain the opening of the earlier one. So it holds
    at most `2 * limit` admissions, and at most `2 * limit - 1` when windows are anchored.
   */
  lemma {:induction false} SlidingBound(epochs: seq<Epoch>, window: int, limit: nat, t: int)
    requires Spaced(epochs, window, limit) && window >= 1 && limit >= 1
    ensures CountIn(Times(epochs), t, t + window) <= 2 * limit
    ensures Anchored(epochs) ==> CountIn(Times(epochs), t, t + window) <= 2 * limit - 1
  {
    if epochs != [] {
      var e, rest := epochs[0], epochs[1..];
      FirstAndRest(epochs, window, limit);
      hide Spaced, CountIn, Times;
      if t <= e.start {
        FirstEpochOnly(epochs, window, limit, t);
      } else {
        CountAppend(e.times, Times(rest), t, t + window);
        if e.start + window <= t {
          CountNone(e.times, t, t + window);
          SlidingBound(rest, window, limit, t);
        } else {
          if Anchored(epochs) {
            CountRest(e, t, t + window);
          }
          FirstEpochOnly(rest, window, limit, t);
        }
      }
    }
  }

  lemma FirstAndRest(epochs: seq<Epoch>, window: int, limit: nat)
    requires Spaced(epochs, window, limit) && epochs != []
    ensures Filled(epochs[0], window, limit) && Spaced(epochs[1..], window, limit)
    ensures |epochs| > 1 ==> epochs[0].start + window <= epochs[1].start
    ensures Times(epochs) == epochs[0].times + Times(epochs[1..])
    ensures Anchored(epochs) ==> Anchored(epochs[1..])
  {
    hide Filled;
    var rest := epochs[1..];
    assert forall i :: 0 <= i < |rest| ==> rest[i] == epochs[i + 1];
  }

  lemma {:induction false} CountAll(times: seq<int>, lo: int, hi: int)
    requires forall i :: 0 <= i < |times| ==> lo <= times[i] < hi
    ensures CountIn(times, lo, hi) == |times|
  {
    if times != [] {
      CountAll(times[1..], lo, hi);
    }
  }

  lemma {:induction false} CountSame(times: seq<int>, lo: int, hi: int, low: int, high: int)
    requires forall i :: 0 <= i < |times| ==> (lo <= times[i] < hi <==> low <= times[i] < high)
    ensures CountIn(times, lo, hi) == CountIn(times, low, high)
  {
    if times != [] {
      CountSame(times[1..], lo, hi, low, high);
    }
  }

  // ---------------------------------------------------------------- windows whose later events keep a distance

  /** Times in order; those after the first `free` are at least `gap` after the one before. */
  ghost predicate Paced(times: seq<int>, free: nat, gap: int)
  {
    && (forall i, j :: 0 <= i <= j < |times| ==> times[i] <= times[j])
    && (forall i, j :: 0 <= i && j == i + 1 && free <= j < |times| ==> times[i] + gap <= times[j])
  }

  ghost predicate AllPaced(epochs: seq<Epoch>, free: nat, gap: int)
  {
    forall i :: 0 <= i < |epochs| ==> Paced(epochs[i].times, free, gap)
  }

  lemma PacedSnoc(times: seq<int>, now: int, free: nat, gap: int)
    requires Paced(times, free, gap)
    requires times != [] ==> times[|times| - 1] <= now && (|times| >= free ==> times[|times| - 1] + gap <= now)
    ensures Paced(times + [now], free, gap)
  {
  }

  lemma PacedOpens(epochs: seq<Epoch>, now: int, free: nat, gap: int)
    requires AllPaced(epochs, free, gap)
    ensures AllPaced(epochs + [Epoch(now, [now])], free, gap)
  {
    assert Paced([now], free, gap);
    hide Paced;
  }

  lemma PacedGrows(epochs: seq<Epoch>, now: int, free: nat, gap: int)
    requires AllPaced(epochs, free, gap) && epochs != []
    requires var times := epochs[|epochs| - 1].times;
      times != [] ==> times[|times| - 1] <= now && (|times| >= free ==> times[|times| - 1] + gap <= now)
    ensures AllPaced(Grow(epochs, now), free, gap)
  {
    PacedSnoc(epochs[|epochs| - 1].times, now, free, gap);
    hide Paced;
  }

  lemma OneMore(k: nat, b: nat)
    ensures (k + 1) * b == k * b + b && 1 * b == b
  {
  }

  /** How many gaps fit into a span. */
  function Gaps(n: nat, gap: nat): (k: nat)
    requires gap >= 1
  {
    n / gap
  }

  lemma WholeGaps(n: nat, gap: nat)
    requires gap >= 1
    ensures Gaps(n, gap) * gap <= n
  {
  }

  lemma DivideBound(k: nat, b: nat, n: nat)
    requires b > 0 && k * b <= n
    ensures k <= Gaps(n, b)
  {
    var q := n / b;
    assert n < q * b + b;
    assert k > q ==> k * b >= (q + 1) * b;
  }

  lemma Distribute(k: nat, l: nat, b: nat)
    ensures (k + l) * b == k * b + l * b
  {
  }

  /**
    In an interval [lo, hi), all but `first` of the counted times keep the distance: `first` is `free`,
    or one less when the list begins before the interval.
   */
  lemma {:induction false} PacedCount(times: seq<int>, free: nat, gap: nat, lo: int, hi: int, first: nat)
    requires Paced(times, free, gap) && first >= 1
    requires first == free || (first + 1 == free && times != [] && times[0] < lo)
    ensures CountIn(times, lo, hi) <= first || lo + (CountIn(times, lo, hi) - first) * gap < hi
    decreases |times|
  {
    hide CountIn;
    if |times| <= 1 {
      CountLength(times, lo, hi);
    } else {
      var n := |times| - 1;
      var before, last := times[..n], times[n];
      CountLast(times, lo, hi);
      if lo <= last < hi {
        var previous := before[n - 1];
        CountSame(before, lo, hi, lo, previous + 1);
        PacedCount(before, free, gap, lo, previous + 1, first);
        var c := CountIn(before, lo, hi);
        if c >= first {
          InInterval(before, lo, previous + 1);
          CountLength(before, lo, hi);
          assert free <= n && previous + gap <= last;
          OneMore(c - first, gap);
        }
      } else {
        PacedCount(before, free, gap, lo, hi, first);
      }
    }
  }

  lemma CountLength(times: seq<int>, lo: int, hi: int)
    ensures CountIn(times, lo, hi) <= |times|
    ensures times != [] && times[0] < lo ==> CountIn(times, lo, hi) < |times|
  {
  }

  lemma CountLast(times: seq<int>, lo: int, hi: int)
    requires times != []
    ensures var n := |times| - 1; CountIn(times, lo, hi) == CountIn(times[..n], lo, hi) + One(lo <= times[n] < hi)
  {
    var n := |times| - 1;
    assert times == times[..n] + [times[n]] && [times[n]][1..] == [];
    CountAppend(times[..n], [times[n]], lo, hi);
  }

  /** Where some time of an ordered list is counted, the last one is not before the interval. */
  lemma InInterval(times: seq<int>, lo: int, hi: int)
    requires times != [] && (forall i, j :: 0 <= i <= j < |times| ==> times[i] <= times[j]) && CountIn(times, lo, hi) > 0
    ensures times[|times| - 1] >= lo
  {
    if times[|times| - 1] < lo {
      CountNone(times, lo, hi);
    }
  }

  /** The most events an interval as long as the window can hold: two bursts, and the paced ones between them. */
  function PacedLimit(window: int, free: nat, gap: nat): (n: nat)
    requires window >= 2 && gap >= 1
  {
    2 * free + Gaps(window - 2, gap)
  }

  lemma {:induction false} PacedBound(epochs: seq<Epoch>, window: int, limit: nat, free: nat, gap: nat, t: int)
    requires Spaced(epochs, window, limit) && AllPaced(epochs, free, gap) && window >= 2 && gap >= 1 && free >= 2
    ensures CountIn(Times(epochs), t, t + window) <= PacedLimit(window, free, gap)
    ensures Anchored(epochs) ==> CountIn(Times(epochs), t, t + window) <= PacedLimit(window, free, gap) - 1
  {
    if epochs != [] {
      var e, rest := epochs[0], epochs[1..];
      FirstAndRest(epochs, window, limit);
      assert Anchored(epochs) ==> e.times != [] && e.times[0] == e.start;
      assert AllPaced(rest, free, gap) && Paced(e.times, free, gap);
      hide Spaced, CountIn, Times, Paced, AllPaced, Anchored;
      CountAppend(e.times, Times(rest), t, t + window);
      if e.start + window <= t {
        CountNone(e.times, t, t + window);
        PacedBound(rest, window, limit, free, gap, t);
      } else if t <= e.start {
        OneWindow(e, rest, window, limit, free, gap, t);
      } else {
        TwoWindows(e, rest, window, limit, free, gap, t, free);
        if Anchored(epochs) {
          TwoWindows(e, rest, window, limit, free, gap, t, free - 1);
        }
      }
    }
  }

  /** An interval that begins no later than a window meets only that one. */
  lemma OneWindow(e: Epoch, rest: seq<Epoch>, window: int, limit: nat, free: nat, gap: nat, t: int)
    requires Spaced(rest, window, limit) && Paced(e.times, free, gap) && window >= 2 && gap >= 1 && free >= 2
    requires t <= e.start && (rest != [] ==> e.start + window <= rest[0].start)
    ensures CountIn(e.times, t, t + window) + CountIn(Times(rest), t, t + window) <= PacedLimit(window, free, gap) - 1
  {
    hide Spaced, CountIn, Times, Paced;
    LateEpochs(rest, window, limit, t, t + window);
    PacedCount(e.times, free, gap, t, t + window, free);
    var c := CountIn(e.times, t, t + window);
    if c > free {
      OneMore(c - free - 1, gap);
      DivideBound(c - free - 1, gap, window - 2);
    }
  }

  /** An interval that begins inside a window meets that one and the next. */
  lemma TwoWindows(e: Epoch, rest: seq<Epoch>, window: int, limit: nat, free: nat, gap: nat, t: int, first: nat)
    requires Filled(e, window, limit) && Spaced(rest, window, limit) && Paced(e.times, free, gap) && AllPaced(rest, free, gap)
    requires e.start < t < e.start + window && (rest != [] ==> e.start + window <= rest[0].start)
    requires window >= 2 && gap >= 1 && free >= 2
    requires first == free || (first + 1 == free && e.times != [] && e.times[0] < t)
    ensures CountIn(e.times, t, t + window) + CountIn(Times(rest), t, t + window) <= first + free + Gaps(window - 2, gap)
  {
    hide CountIn, Times, Paced, Gaps;
    var turn := e.start + window;
    CountSame(e.times, t, t + window, t, turn);
    PacedCount(e.times, free, gap, t, turn, first);
    NextWindow(rest, window, limit, free, gap, t, turn);
    var c, d := CountIn(e.times, t, turn), CountIn(Times(rest), t, t + window);
    var k: nat := if c > first then c - first else 0;
    var l: nat := if d > free then d - free else 0;
    assert k * gap <= turn - 1 - t;
    assert l * gap <= t + window - 1 - turn;
    Distribute(k, l, gap);
    DivideBound(k + l, gap, window - 2);
  }

  lemma NextWindow(epochs: seq<Epoch>, window: int, limit: nat, free: nat, gap: nat, t: int, turn: int)
    requires Spaced(epochs, window, limit) && AllPaced(epochs, free, gap) && window >= 2 && gap >= 1 && free >= 2
    requires t < turn < t + window + 1 && (epochs != [] ==> turn <= epochs[0].start)
    ensures var d := CountIn(Times(epochs), t, t + window); d <= free || turn + (d - free) * gap < t + window
  {
    if epochs != [] {
      var times := epochs[0].times;
      FirstAndRest(epochs, window, limit);
      assert Paced(times, free, gap);
      assert forall i :: 0 <= i < |times| ==> t < turn <= times[i];
      hide Spaced, CountIn, Times, Paced, AllPaced, Filled;
      CountAppend(times, Times(epochs[1..]), t, t + window);
      LateEpochs(epochs[1..], window, limit, t, t + window);
      CountSame(times, t, t + window, turn, t + window);
      PacedCount(times, free, gap, turn, t + window, free);
      assert CountIn(Times(epochs), t, t + window) == CountIn(times, turn, t + window);
    }
  }

  lemma SpacedSnoc(epochs: seq<Epoch>, e: Epoch, window: int, limit: nat)
    requires Spaced(epochs, window, limit) && Filled(e, window, limit)
    requires epochs != [] ==> epochs[|epochs| - 1].start + window <= e.start
    ensures Spaced(epochs + [e], window, limit)
  {
    hide Filled;
  }

  /** An admission that opens a new window. */
  lemma OpenEpoch(epochs: seq<Epoch>, now: int, window: int, limit: nat)
    requires Spaced(epochs, window, limit) && window >= 1 && limit >= 1
    requires epochs != [] ==> epochs[|epochs| - 1].start + window <= now
    ensures Spaced(epochs + [Epoch(now, [now])], window, limit)
    ensures Times(epochs + [Epoch(now, [now])]) == Times(epochs) + [now]
    ensures Anchored(epochs) ==> Anchored(epochs + [Epoch(now, [now])])
  {
    var e := Epoch(now, [now]);
    SpacedSnoc(epochs, e, window, limit);
    TimesAppend(epochs, [e]);
    assert [e][1..] == [];
  }

  function Grow(epochs: seq<Epoch>, now: int): (r: seq<Epoch>)
    requires epochs != []
  {
    var last := epochs[|epochs| - 1];
    epochs[..|epochs| - 1] + [Epoch(last.start, last.times + [now])]
  }

  /** An admission into the current window. */
  lemma GrowEpoch(epochs: seq<Epoch>, now: int, window: int, limit: nat)
    requires Spaced(epochs, window, limit) && epochs != []
    requires var last := epochs[|epochs| - 1]; last.start <= now < last.start + window && |last.times| < limit
    ensures Spaced(Grow(epochs, now), window, limit)
    ensures Times(Grow(epochs, now)) == Times(epochs) + [now]
    ensures Anchored(epochs) ==> Anchored(Grow(epochs, now))
  {
    var n := |epochs| - 1;
    var before, last := epochs[..n], epochs[n];
    var grown := Epoch(last.start, last.times + [now]);
    assert Filled(last, window, limit);
    assert Filled(grown, window, limit);
    assert epochs == before + [last];
    assert n > 0 ==> epochs[n - 1].start + window <= epochs[n].start;
    SpacedPrefix(epochs, n, window, limit);
    AnchoredGrow(epochs, now);
    GrowTimes(before, last, grown, now);
    hide Times, Filled, Spaced, Anchored;
    SpacedSnoc(before, grown, window, limit);
  }

  lemma SpacedPrefix(epochs: seq<Epoch>, n: nat, window: int, limit: nat)
    requires Spaced(epochs, window, limit) && n <= |epochs|
    ensures Spaced(epochs[..n], window, limit)
  {
    hide Filled;
  }

  lemma AnchoredGrow(epochs: seq<Epoch>, now: int)
    requires epochs != []
    ensures Anchored(epochs) ==> Anchored(Grow(epochs, now))
  {
  }

  lemma GrowTimes(before: seq<Epoch>, last: Epoch, grown: Epoch, now: int)
    requires grown.times == last.times + [now]
    ensures Times(before + [grown]) == Times(before + [last]) + [now]
  {
    TimesAppend(before, [last]);
    TimesAppend(before, [grown]);
    assert [last][1..] == [] && [grown][1..] == [];
    AppendAssociative(Times(before), last.times, [now]);
  }
}
