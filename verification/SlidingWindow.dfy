/**
  The sliding-window log kept per key by both rate limiters: a deque of the times
  of admitted requests, from which entries older than the window are dropped.

  Times are reals (time.time() is a float) and never decrease.
 */
module SlidingWindow {

  type Instant = real

  ghost predicate Ascending(h: seq<Instant>) {
    forall i, j {:trigger InOrder(h, i, j)} :: 0 <= i < j < |h| ==> InOrder(h, i, j)
  }

  ghost predicate InOrder(h: seq<Instant>, i: nat, j: nat)
    requires i < |h| && j < |h|
  {
    h[i] <= h[j]
  }

  /** The entries no older than `window` at time `now`. */
  function Recent(h: seq<Instant>, now: Instant, window: real): seq<Instant> {
    if h == [] then []
    else if now - h[0] > window then Recent(h[1..], now, window)
    else h
  }

  /** How many entries lie in the closed interval [from, to]. */
  function CountIn(h: seq<Instant>, from: Instant, to: Instant): nat {
    if h == [] then 0
    else (if from <= h[0] <= to then 1 else 0) + CountIn(h[1..], from, to)
  }

  /** No `limit + 1` consecutive admissions lie within one closed window. */
  ghost predicate Spaced(h: seq<Instant>, limit: nat, window: real) {
    forall i, j {:trigger Apart(h, i, j, window)} ::
      0 <= i < |h| && 0 <= j < |h| && j == i + limit ==> Apart(h, i, j, window)
  }

  ghost predicate Apart(h: seq<Instant>, i: nat, j: nat, window: real)
    requires i < |h| && j < |h|
  {
    h[j] - h[i] > window
  }

  lemma TailIsAscending(h: seq<Instant>)
    requires h != [] && Ascending(h)
    ensures Ascending(h[1..]) && forall i :: 0 < i < |h| ==> h[0] <= h[i]
  {
    forall i, j | 0 <= i < j < |h[1..]| ensures InOrder(h[1..], i, j) {
      assert InOrder(h, i + 1, j + 1);
    }
    forall i | 0 < i < |h| ensures h[0] <= h[i] {
      assert InOrder(h, 0, i);
    }
  }

  lemma {:induction false} CountOfConcat(a: seq<Instant>, b: seq<Instant>, from: Instant, to: Instant)
    ensures CountIn(a + b, from, to) == CountIn(a, from, to) + CountIn(b, from, to)
  {
    if a == [] {
      assert a + b == b;
    } else {
      assert (a + b)[1..] == a[1..] + b;
      CountOfConcat(a[1..], b, from, to);
    }
  }

  lemma CountOfAppend(h: seq<Instant>, x: Instant, from: Instant, to: Instant)
    ensures CountIn(h + [x], from, to) == CountIn(h, from, to) + if from <= x <= to then 1 else 0
  {
    CountOfConcat(h, [x], from, to);
    assert [x][1..] == [];
  }

  lemma {:induction false} CountOfOutside(h: seq<Instant>, from: Instant, to: Instant)
    requires forall i :: 0 <= i < |h| ==> !(from <= h[i] <= to)
    ensures CountIn(h, from, to) == 0
  {
    if h == [] {
    } else {
      CountOfOutside(h[1..], from, to);
    }
  }

  lemma {:induction false} CountOfInside(h: seq<Instant>, from: Instant, to: Instant)
    requires forall i :: 0 <= i < |h| ==> from <= h[i] <= to
    ensures CountIn(h, from, to) == |h|
  {
    if h == [] {
    } else {
      CountOfInside(h[1..], from, to);
    }
  }

  /** Eviction from the left finds exactly the entries of the last window. */
  lemma {:induction false} RecentIsWindow(h: seq<Instant>, now: Instant, window: real)
    requires Ascending(h) && forall i :: 0 <= i < |h| ==> h[i] <= now
    ensures var r := Recent(h, now, window);
      && |r| <= |h| && r == h[|h| - |r|..]
      && (forall i :: 0 <= i < |h| - |r| ==> h[i] < now - window)
      && (forall i :: |h| - |r| <= i < |h| ==> now - window <= h[i] <= now)
  {
    if h == [] {
    } else {
      TailIsAscending(h);
      if now - h[0] > window {
        RecentIsWindow(h[1..], now, window);
        var r := Recent(h[1..], now, window);
        assert forall i :: 1 <= i < |h| ==> h[i] == h[1..][i - 1];
      }
    }
  }

  lemma {:induction false} RecentLengthIsCount(h: seq<Instant>, now: Instant, window: real)
    requires Ascending(h) && forall i :: 0 <= i < |h| ==> h[i] <= now
    ensures |Recent(h, now, window)| == CountIn(h, now - window, now)
  {
    if h == [] {
    } else {
      TailIsAscending(h);
      if now - h[0] > window {
        RecentLengthIsCount(h[1..], now, window);
      } else {
        CountOfInside(h, now - window, now);
      }
    }
  }

  /** What has been dropped once may stay dropped. */
  lemma {:induction false} RecentForgetsOld(dropped: seq<Instant>, kept: seq<Instant>, now: Instant, window: real)
    requires forall i :: 0 <= i < |dropped| ==> now - dropped[i] > window
    ensures Recent(dropped + kept, now, window) == Recent(kept, now, window)
  {
    if dropped == [] {
      assert dropped + kept == kept;
    } else {
      assert (dropped + kept)[1..] == dropped[1..] + kept;
      RecentForgetsOld(dropped[1..], kept, now, window);
    }
  }

  lemma LaterEntryIsAscending(h: seq<Instant>, now: Instant)
    requires Ascending(h) && forall i :: 0 <= i < |h| ==> h[i] <= now
    ensures Ascending(h + [now])
  {
    var h' := h + [now];
    forall i, j | 0 <= i < j < |h'| ensures InOrder(h', i, j) {
      if j < |h| {
        assert InOrder(h, i, j);
      }
    }
  }

  /** Admitting only into a window with room keeps the log spaced. */
  lemma AdmissionKeepsSpacing(h: seq<Instant>, now: Instant, limit: nat, window: real)
    requires Ascending(h) && Spaced(h, limit, window) && forall i :: 0 <= i < |h| ==> h[i] <= now
    requires CountIn(h, now - window, now) < limit
    ensures Ascending(h + [now]) && Spaced(h + [now], limit, window)
  {
    RecentIsWindow(h, now, window);
    RecentLengthIsCount(h, now, window);
    var h' := h + [now];
    forall i, j | 0 <= i < |h'| && 0 <= j < |h'| && j == i + limit ensures Apart(h', i, j, window) {
      if j == |h| {
        assert h[i] < now - window;
      } else {
        assert Apart(h, i, j, window);
      }
    }
    LaterEntryIsAscending(h, now);
  }

  // ---------------------------------------------------------- closed intervals

  lemma {:induction false} SpacingMultiplies(h: seq<Instant>, limit: nat, window: real, i: nat, k: nat)
    requires Spaced(h, limit, window) && i + k * limit < |h| && k > 0
    ensures h[i + k * limit] - h[i] > k as real * window
    decreases k
  {
    if k > 1 {
      assert i + limit + (k - 1) * limit == i + k * limit;
      SpacingMultiplies(h, limit, window, i + limit, k - 1);
      assert k as real * window == (k - 1) as real * window + window;
      assert Apart(h, i, i + limit, window);
    } else {
      assert Apart(h, i, i + limit, window);
      assert 1 as real * window == window;
    }
  }

  /** The entries inside an interval are consecutive in an ascending log. */
  lemma {:induction false} CountIsSlice(h: seq<Instant>, from: Instant, to: Instant) returns (lo: nat, hi: nat)
    requires Ascending(h)
    ensures lo <= hi <= |h| && hi - lo == CountIn(h, from, to)
    ensures forall i :: lo <= i < hi ==> from <= h[i] <= to
    ensures lo == hi ==> forall i :: 0 <= i < |h| ==> !(from <= h[i] <= to)
    ensures forall i :: 0 <= i < lo ==> h[i] < from
    decreases |h|
  {
    if h != [] {
      TailIsAscending(h);
    }
    if h == [] || h[0] > to {
      CountOfOutside(h, from, to);
      lo, hi := 0, 0;
    } else {
      var l, u := CountIsSlice(h[1..], from, to);
      if h[0] < from {
        lo, hi := l + 1, u + 1;
      } else {
        lo, hi := 0, u + 1;
      }
    }
  }

  /** A log with a limit of `limit` per window admits at most k * limit requests in
      any closed interval no longer than k windows. */
  lemma IntervalBound(h: seq<Instant>, limit: nat, window: real, from: Instant, to: Instant, k: nat)
    requires Ascending(h) && Spaced(h, limit, window) && window >= 0.0
    requires k > 0 && to - from <= k as real * window
    ensures CountIn(h, from, to) <= k * limit
  {
    var lo, hi := CountIsSlice(h, from, to);
    if hi - lo > k * limit {
      SpacingMultiplies(h, limit, window, lo, k);
    }
  }

  // ------------------------------------------------------------- the deque

  /** The list `b` is the end of `h`. */
  ghost predicate EndOf(h: seq<Instant>, b: seq<Instant>) {
    |b| <= |h| && forall k {:trigger SameEntry(h, b, k)} :: 0 <= k < |b| ==> SameEntry(h, b, k)
  }

  ghost predicate SameEntry(h: seq<Instant>, b: seq<Instant>, k: nat)
    requires |b| <= |h| && k < |b|
  {
    b[k] == h[|h| - |b| + k]
  }

  lemma EndOfIsSuffix(h: seq<Instant>, b: seq<Instant>)
    ensures EndOf(h, b) <==> |b| <= |h| && b == h[|h| - |b|..]
  {
    if EndOf(h, b) {
      forall k | 0 <= k < |b| ensures b[k] == h[|h| - |b|..][k] {
        assert SameEntry(h, b, k);
      }
    }
  }

  /** Deque `b` holds the end of history `h`; what it has lost is out of the window
      for good at time `clock`. */
  ghost predicate KeptEnd(h: seq<Instant>, b: seq<Instant>, clock: Instant, limit: nat, window: real) {
    && EndOf(h, b)
    && (forall i :: 0 <= i < |h| - |b| ==> clock - h[i] > window)
    && (forall i :: 0 <= i < |h| ==> h[i] <= clock)
    && Ascending(h)
    && Spaced(h, limit, window)
  }

  /** The eviction loop: pops old entries off the left end. */
  method Evict(bucket: seq<Instant>, now: Instant, window: real) returns (rest: seq<Instant>)
    ensures rest == Recent(bucket, now, window)
  {
    rest := bucket;
    while rest != [] && now - rest[0] > window
      invariant Recent(rest, now, window) == Recent(bucket, now, window)
      decreases |rest|
    {
      rest := rest[1..];
    }
  }

  lemma LaterKeepsEnd(h: seq<Instant>, b: seq<Instant>, clock: Instant, now: Instant, limit: nat, window: real)
    requires KeptEnd(h, b, clock, limit, window) && clock <= now
    ensures KeptEnd(h, b, now, limit, window)
  {
  }

  lemma EvictionKeepsEnd(h: seq<Instant>, b: seq<Instant>, clock: Instant, now: Instant, limit: nat, window: real)
    requires KeptEnd(h, b, clock, limit, window) && clock <= now
    ensures var r := Recent(b, now, window);
      && KeptEnd(h, r, now, limit, window)
      && r == Recent(h, now, window)
      && |r| == CountIn(h, now - window, now)
  {
    EndOfIsSuffix(h, b);
    EndOfIsSuffix(h, Recent(h, now, window));
    var dropped := h[..|h| - |b|];
    assert h == dropped + b;
    RecentForgetsOld(dropped, b, now, window);
    RecentLengthIsCount(h, now, window);
    RecentIsWindow(h, now, window);
  }

  lemma AppendKeepsEnd(h: seq<Instant>, r: seq<Instant>, now: Instant, limit: nat, window: real)
    requires KeptEnd(h, r, now, limit, window) && r == Recent(h, now, window) && window >= 0.0
    requires |r| == CountIn(h, now - window, now) < limit
    ensures KeptEnd(h + [now], r + [now], now, limit, window)
    ensures Recent(h + [now], now, window) == r + [now]
  {
    AdmissionKeepsSpacing(h, now, limit, window);
    forall k | 0 <= k < |r + [now]| ensures SameEntry(h + [now], r + [now], k) {
      if k < |r| {
        assert SameEntry(h, r, k);
      }
    }
    RecentOfAppend(h, now, window);
  }

  lemma {:induction false} RecentOfAppend(h: seq<Instant>, now: Instant, window: real)
    requires window >= 0.0
    ensures Recent(h + [now], now, window) == Recent(h, now, window) + [now]
  {
    if h == [] {
      assert h + [now] == [now];
    } else {
      assert (h + [now])[1..] == h[1..] + [now];
      RecentOfAppend(h[1..], now, window);
    }
  }
}
