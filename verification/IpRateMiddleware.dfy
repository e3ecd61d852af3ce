/**
  RateLimitMiddleware as the code runs it: a dictionary of deques, a Redis client
  that comes and goes, and a sweep.  Its history and fields are, after every
  request, those of the state machine of module IpRateLimit.
 */
module IpRateMiddleware {
  import opened Base
  import opened SlidingWindow
  import opened IpRateLimit

  const CLEANUP_EVERY: nat := 500

  type Deques = map<string, seq<Instant>>

  function Deque(hits: Deques, ip: string): seq<Instant> {
    if ip in hits then hits[ip] else []
  }

  /** The deque of an IP holds the end of its in-memory history. */
  ghost predicate DequeOk(log: seq<Admission>, hits: Deques, clock: Instant, limit: nat, ip: string) {
    KeptEnd(Times(log, MemoryOf(ip)), Deque(hits, ip), clock, limit, WINDOW)
  }

  ghost predicate DequesOk(log: seq<Admission>, hits: Deques, clock: Instant, limit: nat) {
    forall ip {:trigger DequeOk(log, hits, clock, limit, ip)} :: DequeOk(log, hits, clock, limit, ip)
  }

  lemma DequesLater(log: seq<Admission>, hits: Deques, clock: Instant, now: Instant, limit: nat)
    requires DequesOk(log, hits, clock, limit) && clock <= now
    ensures DequesOk(log, hits, now, limit)
  {
    forall ip ensures DequeOk(log, hits, now, limit, ip) {
      assert DequeOk(log, hits, clock, limit, ip);
      LaterKeepsEnd(Times(log, MemoryOf(ip)), Deque(hits, ip), clock, now, limit, WINDOW);
    }
  }

  /** An admission that is not in memory leaves every deque right. */
  lemma DequesIgnore(log: seq<Admission>, hits: Deques, clock: Instant, limit: nat, a: Admission)
    requires DequesOk(log, hits, clock, limit) && a.via != Memory
    ensures DequesOk(log + [a], hits, clock, limit)
  {
    forall ip ensures DequeOk(log + [a], hits, clock, limit, ip) {
      assert DequeOk(log, hits, clock, limit, ip);
      TimesOfAppend(log, a, MemoryOf(ip));
    }
  }

  /** Looking up the deques differently changes nothing: the sweep's case. */
  lemma DequesSwept(log: seq<Admission>, hits: Deques, hits': Deques, clock: Instant, limit: nat)
    requires DequesOk(log, hits, clock, limit) && forall ip :: Deque(hits', ip) == Deque(hits, ip)
    ensures DequesOk(log, hits', clock, limit)
  {
    forall ip ensures DequeOk(log, hits', clock, limit, ip) {
      assert DequeOk(log, hits, clock, limit, ip);
    }
  }

  /** Evicting one deque finds the last minute of that IP's history. */
  lemma EvictedDeque(log: seq<Admission>, hits: Deques, clock: Instant, limit: nat, ip: string, now: Instant)
    requires DequesOk(log, hits, clock, limit) && clock <= now
    ensures var kept := Recent(Deque(hits, ip), now, WINDOW);
      && KeptEnd(Times(log, MemoryOf(ip)), kept, now, limit, WINDOW)
      && kept == Recent(Times(log, MemoryOf(ip)), now, WINDOW)
      && |kept| == CountIn(Times(log, MemoryOf(ip)), now - WINDOW, now)
  {
    assert DequeOk(log, hits, clock, limit, ip);
    EvictionKeepsEnd(Times(log, MemoryOf(ip)), Deque(hits, ip), clock, now, limit, WINDOW);
  }

  lemma DequesAfterRefusal(log: seq<Admission>, hits: Deques, clock: Instant, limit: nat, ip: string, now: Instant)
    requires DequesOk(log, hits, clock, limit) && clock <= now
    ensures DequesOk(log, hits[ip := Recent(Deque(hits, ip), now, WINDOW)], now, limit)
  {
    EvictedDeque(log, hits, clock, limit, ip, now);
    DequesLater(log, hits, clock, now, limit);
    var hits' := hits[ip := Recent(Deque(hits, ip), now, WINDOW)];
    forall k ensures DequeOk(log, hits', now, limit, k) {
      assert DequeOk(log, hits, now, limit, k);
    }
  }

  lemma DequesAfterAdmission(log: seq<Admission>, hits: Deques, clock: Instant, limit: nat, ip: string, now: Instant)
    requires DequesOk(log, hits, clock, limit) && clock <= now
    requires |Recent(Deque(hits, ip), now, WINDOW)| < limit
    ensures DequesOk(log + [Admission(ip, now, Memory)],
                     hits[ip := Recent(Deque(hits, ip), now, WINDOW) + [now]], now, limit)
  {
    var kept, a := Recent(Deque(hits, ip), now, WINDOW), Admission(ip, now, Memory);
    EvictedDeque(log, hits, clock, limit, ip, now);
    AppendKeepsEnd(Times(log, MemoryOf(ip)), kept, now, limit, WINDOW);
    DequesLater(log, hits, clock, now, limit);
    var log', hits' := log + [a], hits[ip := kept + [now]];
    forall k ensures DequeOk(log', hits', now, limit, k) {
      assert DequeOk(log, hits, now, limit, k);
      TimesOfAppend(log, a, MemoryOf(k));
    }
  }

  // --------------------------------------------------------------- the server

  class RedisServer {
    var counters: Counters

    constructor ()
      ensures counters == map[]
    {
      counters := map[];
    }

    /** INCR, after whatever other processes did to the key. */
    method Incr(ip: string, b: int, at: Instant, others: Others) returns (n: nat)
      modifies this
      ensures var seen := Increment(old(counters), ip, b, others.count, others.first, others.expires);
        counters == Increment(seen, ip, b, 1, at, false) && n == CountAt(counters, ip, b, at)
    {
      counters := Increment(counters, ip, b, others.count, others.first, others.expires);
      counters := Increment(counters, ip, b, 1, at, false);
      n := CountAt(counters, ip, b, at);
    }

    /** EXPIRE on a key that exists. */
    method Expire(ip: string, b: int)
      requires (ip, b) in counters
      modifies this
      ensures counters == old(counters)[(ip, b) := old(counters)[(ip, b)].(expires := true)]
    {
      counters := counters[(ip, b) := counters[(ip, b)].(expires := true)];
    }
  }

  /** What EXPIRE after an increment that returned 1 makes of the key. */
  lemma ExpireCompletesIncrement(counters: Counters, ip: string, b: int, at: Instant)
    ensures var plain := Increment(counters, ip, b, 1, at, false);
      && (ip, b) in plain && CountAt(plain, ip, b, at) == CountAt(counters, ip, b, at) + 1
      && (CountAt(plain, ip, b, at) == 1 ==>
            Increment(counters, ip, b, 1, at, true) == plain[(ip, b) := plain[(ip, b)].(expires := true)])
      && (CountAt(plain, ip, b, at) > 1 ==> Increment(counters, ip, b, 1, at, true) == plain)
  {
  }

  class RateLimitMiddleware {
    const limit: nat
    const configured: bool
    const server: RedisServer
    var connected: bool
    var lastFailure: Option<Instant>
    var hits: Deques
    var requestCount: nat

    ghost var log: seq<Admission>
    ghost var contacts: seq<Contact>
    ghost var clock: Instant

    /** The state of the state machine. */
    ghost function Now(): State
      reads this, server
    {
      State(log, contacts, server.counters, connected, lastFailure, configured, clock, limit)
    }

    ghost predicate Valid()
      reads this, server
    {
      Sound(Now()) && DequesOk(log, hits, clock, limit)
    }

    constructor (maxRequests: nat, redisConfigured: bool, redis: RedisServer)
      requires redis.counters == map[]
      ensures Valid() && Now() == Initial(maxRequests, redisConfigured) && server == redis
    {
      limit := maxRequests;
      configured := redisConfigured;
      server := redis;
      connected := redisConfigured;
      lastFailure := None;
      hits := map[];
      requestCount := 0;
      log, contacts := [], [];
      clock := 0.0;
      new;
      InitiallySound(maxRequests, redisConfigured);
    }

    /** _try_reconnect_redis. */
    method TryReconnect(r: Request)
      requires DequesOk(log, hits, clock, limit) && clock <= r.t.pinged
      requires !connected && lastFailure.Some?
      modifies this`connected, this`lastFailure, this`clock, this`contacts
      ensures Now() == Reconnected(old(Now()), r) && DequesOk(log, hits, clock, limit)
    {
      DequesLater(log, hits, clock, r.t.pinged, limit);
      clock := r.t.pinged;
      if !configured || r.t.check - lastFailure.value < RETRY {
        return;
      }
      contacts := contacts + [Ping(r.t.pinged, !r.faults.ping)];
      if r.faults.ping {
        lastFailure := Some(r.t.pinged);
      } else {
        connected := true;
        lastFailure := None;
      }
    }

    /** dispatch: the next state and the answer are those of the state machine, and
        the deques go on holding the ends of the in-memory histories. */
    method Dispatch(r: Request) returns (admitted: bool)
      requires Valid() && r.Timely(clock)
      modifies this, server
      ensures Valid() && Now() == Serve(old(Now()), r)
      ensures admitted <==> |log| > |old(log)|
    {
      ghost var before := Now();
      ServeKeepsSound(before, r);
      ReconnectedKeepsSound(before, r);
      if !connected && lastFailure.Some? {
        TryReconnect(r);
      }
      assert Now() == Reconnected(before, r);
      if connected {
        admitted := CountInRedis(r);
      } else {
        admitted := CountInMemory(r);
      }
    }

    /** The in-memory fallback: evict, compare, append. */
    method CountInMemory(r: Request) returns (admitted: bool)
      requires DequesOk(log, hits, clock, limit) && clock <= r.t.act <= r.t.failed
      modifies this`hits, this`log, this`clock, this`requestCount
      ensures Now() == InMemory(old(Now()), r) && DequesOk(log, hits, clock, limit)
      ensures admitted <==> |log| > |old(log)|
    {
      EvictedDeque(log, hits, clock, limit, r.ip, r.t.act);
      var bucket := Evict(Deque(hits, r.ip), r.t.act, WINDOW);
      admitted := |bucket| < limit;
      if !admitted {
        DequesAfterRefusal(log, hits, clock, limit, r.ip, r.t.act);
        hits := hits[r.ip := bucket];
        DequesLater(log, hits, r.t.act, r.t.failed, limit);
        clock := r.t.failed;
        return;
      }
      Append(r, bucket);
    }

    method Append(r: Request, bucket: seq<Instant>)
      requires DequesOk(log, hits, clock, limit) && clock <= r.t.act <= r.t.failed
      requires bucket == Recent(Deque(hits, r.ip), r.t.act, WINDOW) && |bucket| < limit
      modifies this`hits, this`log, this`clock, this`requestCount
      ensures clock == r.t.failed && log == old(log) + [Admission(r.ip, r.t.act, Memory)]
      ensures DequesOk(log, hits, clock, limit)
    {
      DequesAfterAdmission(log, hits, clock, limit, r.ip, r.t.act);
      hits, log := hits[r.ip := bucket + [r.t.act]], log + [Admission(r.ip, r.t.act, Memory)];
      DequesLater(log, hits, r.t.act, r.t.failed, limit);
      clock := r.t.failed;
      requestCount := requestCount + 1;
      if requestCount % CLEANUP_EVERY == 0 {
        DropEmptyBuckets();
      }
    }

    /** The sweep after every 500th in-memory admission. */
    method DropEmptyBuckets()
      requires DequesOk(log, hits, clock, limit)
      modifies this`hits
      ensures DequesOk(log, hits, clock, limit)
      ensures forall ip :: Deque(hits, ip) == Deque(old(hits), ip)
      ensures forall ip :: ip in hits ==> hits[ip] != []
    {
      var kept := map ip | ip in hits && hits[ip] != [] :: hits[ip];
      DequesSwept(log, hits, kept, clock, limit);
      hits := kept;
    }

    /** _is_over_limit_redis, the other way round. */
    method CountInRedis(r: Request) returns (admitted: bool)
      requires DequesOk(log, hits, clock, limit) && clock <= r.t.act <= r.t.failed
      modifies this`log, this`contacts, this`connected, this`lastFailure, this`clock, server
      ensures Now() == ThroughRedis(old(Now()), r) && DequesOk(log, hits, clock, limit)
      ensures admitted <==> |log| > |old(log)|
    {
      if r.faults.incr {
        FailOver(r.ip, r.t.failed);
        return true;
      }
      var n, raised := Count(r);
      if raised {
        FailOver(r.ip, r.t.failed);
        return true;
      }
      admitted := n <= limit;
      Record(r, admitted);
    }

    /** The two Redis calls; the second raises when `raised`. */
    method Count(r: Request) returns (n: nat, raised: bool)
      modifies server
      ensures server.counters == Counted(old(Now()), r)
      ensures n == CountSeen(old(Now()), r) && raised == (n == 1 && r.faults.expire)
    {
      var b := BucketOf(r.t.act);
      ghost var seen := Increment(server.counters, r.ip, b, r.others.count, r.others.first, r.others.expires);
      ExpireCompletesIncrement(seen, r.ip, b, r.t.act);
      n := server.Incr(r.ip, b, r.t.act, r.others);
      if n == 1 {
        if r.faults.expire {
          return n, true;
        }
        server.Expire(r.ip, b);
      }
      raised := false;
    }

    /** The end of a request that Redis has counted. */
    method Record(r: Request, admitted: bool)
      requires DequesOk(log, hits, clock, limit) && clock <= r.t.failed
      modifies this`log, this`clock
      ensures clock == r.t.failed && DequesOk(log, hits, clock, limit)
      ensures log == if admitted then old(log) + [Admission(r.ip, r.t.act, Redis(BucketOf(r.t.act)))] else old(log)
    {
      DequesLater(log, hits, clock, r.t.failed, limit);
      clock := r.t.failed;
      if admitted {
        DequesIgnore(log, hits, clock, limit, Admission(r.ip, r.t.act, Redis(BucketOf(r.t.act))));
        log := log + [Admission(r.ip, r.t.act, Redis(BucketOf(r.t.act)))];
      }
    }

    /** The except clause: let this one pass and leave Redis. */
    method FailOver(ip: string, now: Instant)
      requires DequesOk(log, hits, clock, limit) && clock <= now
      modifies this`log, this`contacts, this`connected, this`lastFailure, this`clock
      ensures Now() == FailedOpen(old(Now()), ip, now) && DequesOk(log, hits, clock, limit)
    {
      DequesLater(log, hits, clock, now, limit);
      DequesIgnore(log, hits, now, limit, Admission(ip, now, FailOpen));
      log, contacts := log + [Admission(ip, now, FailOpen)], contacts + [Failure(now)];
      connected := false;
      lastFailure := Some(now);
      clock := now;
    }

    /** Whatever Redis does: at most 3 * limit + 3 admissions of one IP in any closed
        minute, and at most `limit` when Redis is not configured. */
    lemma AdmissionsPerMinute(ip: string, from: Instant)
      requires Valid()
      ensures InMinute(Now(), ip, from) <= if configured then 3 * limit + 3 else limit
    {
      if configured {
        MinuteBound(Now(), ip, from);
      } else {
        LimitHoldsWithoutRedis(Now(), ip, from);
      }
    }
  }
}
