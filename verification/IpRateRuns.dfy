/**
  When the per-IP limiter does keep to its limit, and how far it can exceed it:
  exact answers over all runs, each with a run that shows the other side.
 */
module IpRateRuns {
  import opened Base
  import opened SlidingWindow
  import opened IpRateLimit

  /** In every run, no closed minute holds more than `limit` admissions of an IP. */
  ghost predicate KeepsTheLimit(limit: nat, configured: bool) {
    forall rs, ip, from ::
      TimelyRun(0.0, rs) ==> InMinute(Run(Initial(limit, configured), rs), ip, from) <= limit
  }

  /** The same for the runs in which no Redis call ever raises. */
  ghost predicate KeepsTheLimitWhenCalm(limit: nat, configured: bool) {
    forall rs, ip, from ::
      TimelyRun(0.0, rs) && Calm(rs) ==> InMinute(Run(Initial(limit, configured), rs), ip, from) <= limit
  }

  predicate Calm(rs: seq<Request>) {
    forall k :: 0 <= k < |rs| ==> rs[k].faults == CALM
  }

  // ------------------------------------------------------------- building runs

  /** A request of one client at one instant; nobody else counts against its key. */
  function Ask(at: Instant): Request {
    Request("a", Clock(at, at, at, at), CALM, NOBODY)
  }

  /** The same, while Redis refuses the increment. */
  function AskWhileDown(at: Instant): Request {
    Request("a", Clock(at, at, at, at), Faults(false, true, false), NOBODY)
  }

  function Burst(at: Instant, n: nat): seq<Request> {
    if n == 0 then [] else [Ask(at)] + Burst(at, n - 1)
  }

  lemma {:induction false} BurstIsCalm(at: Instant, n: nat)
    ensures Calm(Burst(at, n))
  {
    if n == 0 {
    } else {
      BurstIsCalm(at, n - 1);
    }
  }

  lemma {:induction false} RunSplits(s: State, a: seq<Request>, b: seq<Request>)
    requires TimelyRun(s.clock, a) && Sound(s)
    ensures Run(s, a + b) == Run(Run(s, a), b)
    ensures TimelyRun(Run(s, a).clock, b) ==> TimelyRun(s.clock, a + b)
    decreases |a|
  {
    if a == [] {
      assert a + b == b;
    } else {
      assert (a + b)[1..] == a[1..] + b;
      ServeKeepsSound(s, a[0]);
      RunSplits(Serve(s, a[0]), a[1..], b);
    }
  }

  /** Admissions of the client in the first closed minute. */
  function Minute(s: State): nat {
    InMinute(s, "a", 0.0)
  }

  function Remembered(s: State): seq<Instant> {
    Times(s.log, MemoryOf("a"))
  }

  function Counter(s: State, at: Instant): nat {
    CountAt(s.counters, "a", BucketOf(at), at)
  }

  lemma OneMore(s: State, s': State, via: Via, at: Instant)
    requires 0.0 <= at <= WINDOW && s'.log == s.log + [Admission("a", at, via)]
    ensures Minute(s') == Minute(s) + 1
    ensures Remembered(s') == if via == Memory then Remembered(s) + [at] else Remembered(s)
  {
    TimesOfAppend(s.log, Admission("a", at, via), OfIp("a"));
    TimesOfAppend(s.log, Admission("a", at, via), MemoryOf("a"));
    CountOfAppend(Times(s.log, OfIp("a")), at, 0.0, WINDOW);
  }

  /** Redis is in use at `at`, or will be tried again then. */
  predicate RedisAt(s: State, at: Instant) {
    s.configured && (s.connected || DueForRetry(s, at))
  }

  /** n times f. */
  function Iterate(f: State -> State, s: State, n: nat): State
    decreases n
  {
    if n == 0 then s else f(Iterate(f, s, n - 1))
  }

  lemma {:induction false} IterateFromFirst(f: State -> State, s: State, n: nat)
    requires n > 0
    ensures Iterate(f, s, n) == Iterate(f, f(s), n - 1)
    decreases n
  {
    if n == 1 {
    } else {
      IterateFromFirst(f, s, n - 1);
    }
  }

  lemma {:induction false} IterateKeeps(f: State -> State, s: State, n: nat, inv: (State, nat) -> bool)
    requires inv(s, 0) && forall x, k: nat :: k < n && inv(x, k) ==> inv(f(x), k + 1)
    ensures inv(Iterate(f, s, n), n)
    decreases n
  {
    if n == 0 {
    } else {
      IterateKeeps(f, s, n - 1, inv);
    }
  }

  function AskAt(at: Instant): State -> State {
    s => Serve(s, Ask(at))
  }

  /** The state after n requests of the client at one instant. */
  function AfterBurst(s: State, at: Instant, n: nat): State {
    Iterate(AskAt(at), s, n)
  }

  lemma {:induction false} BurstIsTimely(clock: Instant, at: Instant, n: nat)
    requires clock <= at
    ensures TimelyRun(clock, Burst(at, n))
    decreases n
  {
    if n == 0 {
    } else {
      BurstIsTimely(at, at, n - 1);
      assert Burst(at, n)[1..] == Burst(at, n - 1);
    }
  }

  lemma {:induction false} RunOfBurst(s: State, at: Instant, n: nat)
    ensures Run(s, Burst(at, n)) == AfterBurst(s, at, n)
    decreases n
  {
    if n == 0 {
    } else {
      var next := AskAt(at)(s);
      RunOfBurst(next, at, n - 1);
      IterateFromFirst(AskAt(at), s, n);
      assert Burst(at, n)[1..] == Burst(at, n - 1);
    }
  }

  /** From `s` to `s'` Redis has admitted n requests of the client at `at`. */
  ghost predicate Advanced(s: State, s': State, at: Instant, n: nat) {
    && Sound(s') && s'.clock <= at && s'.limit == s.limit && RedisAt(s', at)
    && Minute(s') == Minute(s) + n && Remembered(s') == Remembered(s) && Counter(s', at) == Counter(s, at) + n
    && OtherKeysKept(s, s', BucketOf(at))
  }

  ghost predicate OtherKeysKept(s: State, s': State, bucket: int) {
    forall b {:trigger KeyKept(s, s', b)} :: b != bucket ==> KeyKept(s, s', b)
  }

  predicate KeyKept(s: State, s': State, b: int) {
    ("a", b) in s'.counters <==> ("a", b) in s.counters
  }

  lemma AdvancedAdds(s: State, mid: State, s': State, at: Instant, m: nat, n: nat)
    ensures Advanced(s, mid, at, m) && Advanced(mid, s', at, n) ==> Advanced(s, s', at, m + n)
  {
    if Advanced(s, mid, at, m) && Advanced(mid, s', at, n) {
      forall b | b != BucketOf(at) ensures KeyKept(s, s', b) {
        assert KeyKept(s, mid, b) && KeyKept(mid, s', b);
      }
    }
  }

  /** What the request does to the counters: its own increment, and nobody else's. */
  lemma AskCounts(s: State, at: Instant)
    requires CountersOk(s.log, s.counters, s.limit)
    ensures Counted(s, Ask(at)) == Increment(s.counters, "a", BucketOf(at), 1, at, true)
    ensures CountSeen(s, Ask(at)) == Counter(s, at) + 1
  {
    IncrementCounts(s.log, s.counters, s.limit, "a", BucketOf(at), 1, at, true);
  }

  /** The state after it, field by field. */
  lemma ServedByRedis(s: State, at: Instant) returns (end: State)
    requires Sound(s) && s.clock <= at && RedisAt(s, at) && Counter(s, at) < s.limit
    ensures end == Serve(s, Ask(at)) && Sound(end)
    ensures end.log == s.log + [Admission("a", at, Redis(BucketOf(at)))]
    ensures end.counters == Increment(s.counters, "a", BucketOf(at), 1, at, true)
    ensures end.connected && end.configured && end.clock == at && end.limit == s.limit
  {
    var mid := Reconnected(s, Ask(at));
    end := Serve(s, Ask(at));
    ServeKeepsSound(s, Ask(at));
    AskCounts(mid, at);
  }

  lemma RedisStep(s: State, at: Instant) returns (end: State)
    requires Sound(s) && 0.0 <= at <= WINDOW && s.clock <= at && RedisAt(s, at) && Counter(s, at) < s.limit
    ensures end == Serve(s, Ask(at)) && Advanced(s, end, at, 1)
  {
    end := ServedByRedis(s, at);
    OneMore(s, end, Redis(BucketOf(at)), at);
    IncrementCounts(s.log, s.counters, s.limit, "a", BucketOf(at), 1, at, true);
  }

  lemma AdvancedOneMore(s: State, x: State, at: Instant, k: nat)
    requires Advanced(s, x, at, k) && 0.0 <= at <= WINDOW && Counter(s, at) + k < s.limit
    ensures Advanced(s, Serve(x, Ask(at)), at, k + 1)
  {
    var next := RedisStep(x, at);
    AdvancedAdds(s, x, next, at, k, 1);
  }

  lemma RedisBurst(s: State, at: Instant, n: nat)
    requires Sound(s) && 0.0 <= at <= WINDOW && s.clock <= at && RedisAt(s, at) && Counter(s, at) + n <= s.limit
    ensures Advanced(s, AfterBurst(s, at, n), at, n)
  {
    ghost var inv := (x: State, k: nat) => Advanced(s, x, at, k);
    forall x, k: nat | k < n && inv(x, k) ensures inv(AskAt(at)(x), k + 1) {
      AdvancedOneMore(s, x, at, k);
    }
    IterateKeeps(AskAt(at), s, n, inv);
  }

  /** The same for the run, which is what the theorems speak of. */
  lemma RunRedisBurst(s: State, at: Instant, n: nat)
    requires Sound(s) && 0.0 <= at <= WINDOW && s.clock <= at && RedisAt(s, at) && Counter(s, at) + n <= s.limit
    ensures TimelyRun(s.clock, Burst(at, n)) && Advanced(s, Run(s, Burst(at, n)), at, n)
  {
    BurstIsTimely(s.clock, at, n);
    RunOfBurst(s, at, n);
    RedisBurst(s, at, n);
  }

  lemma RunOfOne(s: State, r: Request)
    ensures Run(s, [r]) == Serve(s, r)
    ensures TimelyRun(s.clock, [r]) <==> r.Timely(s.clock)
  {
    var rest := [r][1..];
    assert rest == [];
    assert Run(Serve(s, r), rest) == Serve(s, r);
  }

  lemma ServedWhileDown(s: State, at: Instant)
    requires Sound(s) && s.clock <= at && RedisAt(s, at)
    ensures Serve(s, AskWhileDown(at)) == FailedOpen(Reconnected(s, AskWhileDown(at)), "a", at)
    ensures Reconnected(s, AskWhileDown(at)).log == s.log
  {
  }

  lemma FailureStep(s: State, at: Instant)
    requires Sound(s) && 0.0 <= at <= WINDOW && s.clock <= at && RedisAt(s, at)
    ensures TimelyRun(s.clock, [AskWhileDown(at)])
    ensures var s' := Run(s, [AskWhileDown(at)]);
      && Sound(s') && s'.clock == at && s'.limit == s.limit && s'.configured
      && !s'.connected && s'.lastFailure == Some(at) && s'.counters == s.counters
      && Minute(s') == Minute(s) + 1 && Remembered(s') == Remembered(s)
  {
    RunOfOne(s, AskWhileDown(at));
    ServedWhileDown(s, at);
    ServeKeepsSound(s, AskWhileDown(at));
    OneMore(s, Serve(s, AskWhileDown(at)), FailOpen, at);
  }

  /** In memory, right after a failure. */
  predicate JustFailed(s: State, at: Instant) {
    s.configured && !s.connected && s.lastFailure == Some(at) && s.clock == at
  }

  /** From `s` to `s'` memory has admitted n requests of the client at `at`. */
  ghost predicate Filled(s: State, s': State, at: Instant, n: nat) {
    && Sound(s') && JustFailed(s', at) && s'.limit == s.limit && s'.counters == s.counters
    && Minute(s') == Minute(s) + n
    && CountIn(Remembered(s'), at - WINDOW, at) == CountIn(Remembered(s), at - WINDOW, at) + n
  }

  lemma FilledAdds(s: State, mid: State, s': State, at: Instant, m: nat, n: nat)
    requires Filled(s, mid, at, m) && Filled(mid, s', at, n)
    ensures Filled(s, s', at, m + n)
  {
  }

  lemma ServedFromMemory(s: State, at: Instant) returns (end: State)
    requires Sound(s) && JustFailed(s, at) && CountIn(Remembered(s), at - WINDOW, at) < s.limit
    ensures end == Serve(s, Ask(at)) && Sound(end)
    ensures end.log == s.log + [Admission("a", at, Memory)] && end.counters == s.counters
    ensures JustFailed(end, at) && end.limit == s.limit
  {
    end := Serve(s, Ask(at));
    ServeKeepsSound(s, Ask(at));
  }

  lemma MemoryStep(s: State, at: Instant) returns (end: State)
    requires Sound(s) && 0.0 <= at <= WINDOW && JustFailed(s, at)
    requires CountIn(Remembered(s), at - WINDOW, at) < s.limit
    ensures end == Serve(s, Ask(at)) && Filled(s, end, at, 1)
  {
    end := ServedFromMemory(s, at);
    OneMore(s, end, Memory, at);
    CountOfAppend(Remembered(s), at, at - WINDOW, at);
  }

  lemma FilledOneMore(s: State, x: State, at: Instant, k: nat)
    requires Filled(s, x, at, k) && 0.0 <= at <= WINDOW && CountIn(Remembered(s), at - WINDOW, at) + k < s.limit
    ensures Filled(s, Serve(x, Ask(at)), at, k + 1)
  {
    var next := MemoryStep(x, at);
    FilledAdds(s, x, next, at, k, 1);
  }

  lemma MemoryBurst(s: State, at: Instant, n: nat)
    requires Sound(s) && 0.0 <= at <= WINDOW && JustFailed(s, at)
    requires CountIn(Remembered(s), at - WINDOW, at) + n <= s.limit
    ensures Filled(s, AfterBurst(s, at, n), at, n)
  {
    ghost var inv := (x: State, k: nat) => Filled(s, x, at, k);
    forall x, k: nat | k < n && inv(x, k) ensures inv(AskAt(at)(x), k + 1) {
      FilledOneMore(s, x, at, k);
    }
    IterateKeeps(AskAt(at), s, n, inv);
  }

  lemma RunMemoryBurst(s: State, at: Instant, n: nat)
    requires Sound(s) && 0.0 <= at <= WINDOW && JustFailed(s, at)
    requires CountIn(Remembered(s), at - WINDOW, at) + n <= s.limit
    ensures TimelyRun(s.clock, Burst(at, n)) && Filled(s, Run(s, Burst(at, n)), at, n)
  {
    BurstIsTimely(s.clock, at, n);
    RunOfBurst(s, at, n);
    MemoryBurst(s, at, n);
  }

  // ------------------------------------------------------- the bound is sharp

  function FirstPart(limit: nat): seq<Request> {
    Burst(0.0, limit) + [AskWhileDown(0.0)]
  }

  function HalfMinute(limit: nat): seq<Request> {
    FirstPart(limit) + Burst(0.0, limit)
  }

  function SecondFailure(limit: nat): seq<Request> {
    HalfMinute(limit) + [AskWhileDown(30.0)]
  }

  function WholeMinute(limit: nat): seq<Request> {
    SecondFailure(limit) + Burst(60.0, limit)
  }

  /** Both buckets full, the in-memory window full, and Redis failing three times. */
  function BusyMinute(limit: nat): seq<Request> {
    WholeMinute(limit) + [AskWhileDown(60.0)]
  }

  lemma AfterFirstPart(limit: nat)
    ensures var s := Run(Initial(limit, true), FirstPart(limit));
      && TimelyRun(0.0, FirstPart(limit)) && Sound(s) && JustFailed(s, 0.0) && s.limit == limit
      && Minute(s) == limit + 1 && Remembered(s) == [] && ("a", 1) !in s.counters
  {
    var s0 := Initial(limit, true);
    InitiallySound(limit, true);
    assert BucketOf(0.0) == 0;
    RunRedisBurst(s0, 0.0, limit);
    assert KeyKept(s0, Run(s0, Burst(0.0, limit)), 1);
    FailureStep(Run(s0, Burst(0.0, limit)), 0.0);
    RunSplits(s0, Burst(0.0, limit), [AskWhileDown(0.0)]);
  }

  lemma AfterSecondFailure(limit: nat)
    ensures var s := Run(Initial(limit, true), SecondFailure(limit));
      && TimelyRun(0.0, SecondFailure(limit)) && Sound(s) && JustFailed(s, 30.0) && s.limit == limit
      && Minute(s) == 2 * limit + 2 && ("a", 1) !in s.counters
  {
    var s0 := Initial(limit, true);
    InitiallySound(limit, true);
    AfterFirstPart(limit);
    RunMemoryBurst(Run(s0, FirstPart(limit)), 0.0, limit);
    RunSplits(s0, FirstPart(limit), Burst(0.0, limit));
    FailureStep(Run(s0, HalfMinute(limit)), 30.0);
    RunSplits(s0, HalfMinute(limit), [AskWhileDown(30.0)]);
  }

  /** For every limit there is a run that reaches the bound of 3 * limit + 3. */
  lemma BoundIsReached(limit: nat)
    ensures TimelyRun(0.0, BusyMinute(limit))
    ensures InMinute(Run(Initial(limit, true), BusyMinute(limit)), "a", 0.0) == 3 * limit + 3
  {
    var s0 := Initial(limit, true);
    InitiallySound(limit, true);
    AfterSecondFailure(limit);
    assert BucketOf(60.0) == 1;
    RunRedisBurst(Run(s0, SecondFailure(limit)), 60.0, limit);
    RunSplits(s0, SecondFailure(limit), Burst(60.0, limit));
    FailureStep(Run(s0, WholeMinute(limit)), 60.0);
    RunSplits(s0, WholeMinute(limit), [AskWhileDown(60.0)]);
  }

  // ------------------------------------------- exactly when the limit is kept

  lemma RunsWithoutRedisKeepTheLimit(limit: nat)
    ensures KeepsTheLimit(limit, false)
  {
    forall rs, ip, from | TimelyRun(0.0, rs)
      ensures InMinute(Run(Initial(limit, false), rs), ip, from) <= limit
    {
      InitiallySound(limit, false);
      RunKeepsSound(Initial(limit, false), rs);
      LimitHoldsWithoutRedis(Run(Initial(limit, false), rs), ip, from);
    }
  }

  /** The limit is the number of requests a minute exactly when Redis is not configured. */
  lemma LimitHoldsIffRedisIsNotConfigured(limit: nat, configured: bool)
    ensures KeepsTheLimit(limit, configured) <==> !configured
  {
    if configured {
      BoundIsReached(limit);
    } else {
      RunsWithoutRedisKeepTheLimit(limit);
    }
  }

  function TwoBursts(limit: nat): seq<Request> {
    Burst(59.0, limit) + Burst(60.0, limit)
  }

  lemma {:induction false} CalmAppend(a: seq<Request>, b: seq<Request>)
    requires Calm(a) && Calm(b)
    ensures Calm(a + b)
  {
  }

  /** Two full buckets one second apart: no failure is needed to double the limit. */
  lemma AlignedBucketsDoubleTheLimit(limit: nat)
    ensures TimelyRun(0.0, TwoBursts(limit)) && Calm(TwoBursts(limit))
    ensures InMinute(Run(Initial(limit, true), TwoBursts(limit)), "a", 0.0) == 2 * limit
  {
    var s0 := Initial(limit, true);
    InitiallySound(limit, true);
    assert BucketOf(59.0) == 0 && BucketOf(60.0) == 1;
    RunRedisBurst(s0, 59.0, limit);
    assert KeyKept(s0, Run(s0, Burst(59.0, limit)), 1);
    RunRedisBurst(Run(s0, Burst(59.0, limit)), 60.0, limit);
    RunSplits(s0, Burst(59.0, limit), Burst(60.0, limit));
    BurstIsCalm(59.0, limit);
    BurstIsCalm(60.0, limit);
    CalmAppend(Burst(59.0, limit), Burst(60.0, limit));
  }

  lemma {:induction false} NothingPassesALimitOfZero(s: State, rs: seq<Request>)
    requires Sound(s) && s.connected && s.limit == 0 && s.log == [] && TimelyRun(s.clock, rs) && Calm(rs)
    ensures Run(s, rs).log == []
    decreases |rs|
  {
    if rs == [] {
    } else {
      ServeKeepsSound(s, rs[0]);
      CountedKeepsOk(s, rs[0]);
      assert forall k :: 0 <= k < |rs[1..]| ==> rs[1..][k] == rs[k + 1];
      NothingPassesALimitOfZero(Serve(s, rs[0]), rs[1..]);
    }
  }

  /** Without failures the limit is kept exactly when Redis is not configured, or
      when nothing is to pass at all. */
  lemma CalmLimitHoldsIff(limit: nat, configured: bool)
    ensures KeepsTheLimitWhenCalm(limit, configured) <==> !configured || limit == 0
  {
    if !configured {
      RunsWithoutRedisKeepTheLimit(limit);
    } else if limit == 0 {
      forall rs, ip, from | TimelyRun(0.0, rs) && Calm(rs)
        ensures InMinute(Run(Initial(limit, configured), rs), ip, from) <= limit
      {
        InitiallySound(limit, true);
        NothingPassesALimitOfZero(Initial(0, true), rs);
      }
    } else {
      AlignedBucketsDoubleTheLimit(limit);
    }
  }
}
