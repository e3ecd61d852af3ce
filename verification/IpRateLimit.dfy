/**
  The per-IP limiter as a state machine: Redis fixed windows while Redis answers,
  a sliding window while it does not, one request let through at the moment it
  fails, and at most one reconnection attempt per thirty seconds.
 */
module IpRateLimit {
  import opened Base
  import opened SlidingWindow

  const WINDOW: real := 60.0
  const RETRY: real := 30.0
  const KEY_TTL: real := 65.0

  function BucketOf(at: Instant): int {
    (at / WINDOW).Floor
  }

  // -------------------------------------------------------- log of admissions

  /** How a request was let through. */
  datatype Via = Redis(bucket: int) | Memory | FailOpen

  datatype Admission = Admission(ip: string, at: Instant, via: Via)

  datatype Selector = OfIp(ip: string) | RedisOf(ip: string, bucket: int) | MemoryOf(ip: string) | AnyFailOpen {
    predicate Picks(a: Admission) {
      match this
      case OfIp(i) => a.ip == i
      case RedisOf(i, b) => a.ip == i && a.via == Redis(b)
      case MemoryOf(i) => a.ip == i && a.via == Memory
      case AnyFailOpen => a.via == FailOpen
    }
  }

  /** The times of the selected admissions, oldest first. */
  function Times(log: seq<Admission>, which: Selector): seq<Instant> {
    if log == [] then []
    else
      var last := log[|log| - 1];
      var earlier := Times(log[..|log| - 1], which);
      if which.Picks(last) then earlier + [last.at] else earlier
  }

  lemma TimesOfAppend(log: seq<Admission>, a: Admission, which: Selector)
    ensures Times(log + [a], which) == if which.Picks(a) then Times(log, which) + [a.at] else Times(log, which)
  {
    assert (log + [a])[..|log|] == log;
  }

  // ------------------------------------------------------------- Redis keys

  /** A counter; EXPIRE is sent once, by whoever created the key. */
  datatype RedisKey = RedisKey(count: nat, created: Instant, expires: bool) {
    predicate Gone(at: Instant) {
      expires && at >= created + KEY_TTL
    }
  }

  type Counters = map<(string, int), RedisKey>

  function CountAt(counters: Counters, ip: string, b: int, at: Instant): nat {
    if (ip, b) in counters && !counters[(ip, b)].Gone(at) then counters[(ip, b)].count else 0
  }

  /** A key whose expiry was set counts for sixty-five seconds, any other for good. */
  lemma KeysCountUntilTheyExpire(counters: Counters, ip: string, b: int, at: Instant)
    ensures CountAt(counters, ip, b, at)
            == if (ip, b) in counters && !(counters[(ip, b)].expires && counters[(ip, b)].created + 65.0 <= at)
               then counters[(ip, b)].count else 0
  {
  }

  /** `n` increments, the first of them at time `at`. */
  function Increment(counters: Counters, ip: string, b: int, n: nat, at: Instant, expires: bool): Counters {
    if n == 0 then counters
    else if CountAt(counters, ip, b, at) > 0 then
      counters[(ip, b) := counters[(ip, b)].(count := counters[(ip, b)].count + n)]
    else counters[(ip, b) := RedisKey(n, at, expires)]
  }

  // ---------------------------------------------------------------- requests

  /** The clock readings one dispatch can make, in order. */
  datatype Clock = Clock(check: Instant, pinged: Instant, act: Instant, failed: Instant) {
    predicate From(earlier: Instant) {
      earlier <= check <= pinged <= act <= failed
    }
  }

  /** Which Redis calls raise, if they are made. */
  datatype Faults = Faults(ping: bool, incr: bool, expire: bool)

  const CALM: Faults := Faults(false, false, false)

  /** What other processes did to the key of this request before its own increment. */
  datatype Others = Others(count: nat, first: Instant, expires: bool)

  const NOBODY: Others := Others(0, 0.0, false)

  datatype Request = Request(ip: string, t: Clock, faults: Faults, others: Others) {
    predicate Timely(clock: Instant) {
      t.From(clock) && (others.count > 0 ==> BucketOf(others.first) == BucketOf(t.act))
    }
  }

  // ------------------------------------------------------- the state machine

  /** What the process has learnt about Redis: a ping answered or not, or a call that raised. */
  datatype Contact = Ping(at: Instant, ok: bool) | Failure(at: Instant)

  /** `contacts` is history, like the log; the code keeps `connected` and `lastFailure`. */
  datatype State = State(log: seq<Admission>, contacts: seq<Contact>, counters: Counters, connected: bool,
                         lastFailure: Option<Instant>, configured: bool, clock: Instant, limit: nat)

  function Initial(limit: nat, configured: bool): State {
    State([], [], map[], configured, None, configured, 0.0, limit)
  }

  predicate DueForRetry(s: State, at: Instant) {
    s.lastFailure.Some? && s.configured && at - s.lastFailure.value >= RETRY
  }

  /** The reconnection attempt before a request, if one is due. */
  function Reconnected(s: State, r: Request): State {
    if s.connected || s.lastFailure.None? then s
    else if !DueForRetry(s, r.t.check) then s.(clock := r.t.pinged)
    else if r.faults.ping then
      s.(lastFailure := Some(r.t.pinged), clock := r.t.pinged, contacts := s.contacts + [Ping(r.t.pinged, false)])
    else
      s.(connected := true, lastFailure := None, clock := r.t.pinged,
         contacts := s.contacts + [Ping(r.t.pinged, true)])
  }

  /** Room in the last minute of the IP's whole in-memory history. */
  predicate HasRoom(s: State, ip: string, at: Instant) {
    CountIn(Times(s.log, MemoryOf(ip)), at - WINDOW, at) < s.limit
  }

  function InMemory(s: State, r: Request): State {
    if HasRoom(s, r.ip, r.t.act) then s.(log := s.log + [Admission(r.ip, r.t.act, Memory)], clock := r.t.failed)
    else s.(clock := r.t.failed)
  }

  /** The counters after the other processes and this one have incremented. */
  function Counted(s: State, r: Request): Counters {
    var b := BucketOf(r.t.act);
    var seen := Increment(s.counters, r.ip, b, r.others.count, r.others.first, r.others.expires);
    Increment(seen, r.ip, b, 1, r.t.act, !r.faults.expire)
  }

  function CountSeen(s: State, r: Request): nat {
    CountAt(Counted(s, r), r.ip, BucketOf(r.t.act), r.t.act)
  }

  /** A Redis call raised: the request passes, and Redis is left. */
  function FailedOpen(s: State, ip: string, at: Instant): State {
    s.(log := s.log + [Admission(ip, at, FailOpen)], contacts := s.contacts + [Failure(at)],
       connected := false, lastFailure := Some(at), clock := at)
  }

  function ThroughRedis(s: State, r: Request): State {
    if r.faults.incr then FailedOpen(s, r.ip, r.t.failed)
    else
      var s' := s.(counters := Counted(s, r));
      var n := CountSeen(s, r);
      if n == 1 && r.faults.expire then FailedOpen(s', r.ip, r.t.failed)
      else if n <= s.limit then
        s'.(log := s.log + [Admission(r.ip, r.t.act, Redis(BucketOf(r.t.act)))], clock := r.t.failed)
      else s'.(clock := r.t.failed)
  }

  /** One request; it was admitted exactly when the log has grown. */
  function Serve(s: State, r: Request): State {
    var s' := Reconnected(s, r);
    if s'.connected then ThroughRedis(s', r) else InMemory(s', r)
  }

  function Run(s: State, rs: seq<Request>): State
    decreases |rs|
  {
    if rs == [] then s else Run(Serve(s, rs[0]), rs[1..])
  }

  predicate TimelyRun(clock: Instant, rs: seq<Request>)
    decreases |rs|
  {
    rs == [] || (rs[0].Timely(clock) && TimelyRun(rs[0].t.failed, rs[1..]))
  }

  // --------------------------------------------------------------- invariant

  /** One fail-open admission per thirty seconds. */
  ghost predicate Gapped(h: seq<Instant>) {
    forall i, j {:trigger GapOk(h, i, j)} :: 0 <= i < |h| && 0 <= j < |h| && j == i + 1 ==> GapOk(h, i, j)
  }

  ghost predicate GapOk(h: seq<Instant>, i: nat, j: nat)
    requires i < |h| && j < |h|
  {
    h[j] - h[i] >= RETRY
  }

  ghost predicate HistoryOk(log: seq<Admission>, ip: string, clock: Instant, limit: nat) {
    var h := Times(log, MemoryOf(ip));
    Ascending(h) && Spaced(h, limit, WINDOW) && forall i :: 0 <= i < |h| ==> h[i] <= clock
  }

  ghost predicate MemoryOk(log: seq<Admission>, clock: Instant, limit: nat) {
    forall ip {:trigger HistoryOk(log, ip, clock, limit)} :: HistoryOk(log, ip, clock, limit)
  }

  /** Admissions through one key are within the limit and never outnumber its count. */
  ghost predicate KeyOk(log: seq<Admission>, counters: Counters, limit: nat, ip: string, b: int) {
    var n := |Times(log, RedisOf(ip, b))|;
    && n <= limit
    && (n > 0 ==> (ip, b) in counters)
    && ((ip, b) in counters ==>
          var key := counters[(ip, b)]; n <= key.count && key.count > 0 && BucketOf(key.created) == b)
  }

  ghost predicate CountersOk(log: seq<Admission>, counters: Counters, limit: nat) {
    && (forall ip, b {:trigger KeyOk(log, counters, limit, ip, b)} :: KeyOk(log, counters, limit, ip, b))
    && (forall k :: 0 <= k < |log| && log[k].via.Redis? ==> log[k].via.bucket == BucketOf(log[k].at))
  }

  /** The next failure, if one can come, is thirty seconds after the last. */
  ghost predicate FailuresAre(h: seq<Instant>, connected: bool, lastFailure: Option<Instant>, configured: bool,
                              clock: Instant)
  {
    && Ascending(h) && Gapped(h) && (forall i :: 0 <= i < |h| ==> h[i] <= clock)
    && (connected ==> h == [] || clock - h[|h| - 1] >= RETRY)
    && (!connected && lastFailure.Some? ==> h == [] || lastFailure.value >= h[|h| - 1])
    && (!connected && lastFailure.None? ==> !configured && h == [])
  }

  ghost predicate FailuresOk(s: State) {
    FailuresAre(Times(s.log, AnyFailOpen), s.connected, s.lastFailure, s.configured, s.clock)
  }

  /** The last that was heard of Redis, if anything, is good. */
  predicate LastIsGood(contacts: seq<Contact>) {
    contacts == [] || (contacts[|contacts| - 1].Ping? && contacts[|contacts| - 1].ok)
  }

  /** A ping comes thirty seconds or more after bad news, a failure only after good. */
  predicate Follows(a: Contact, b: Contact) {
    if b.Ping? then !(a.Ping? && a.ok) && b.at - a.at >= RETRY else a.Ping? && a.ok && b.at >= a.at
  }

  ghost predicate ContactsFollow(contacts: seq<Contact>, clock: Instant) {
    && (forall k {:trigger contacts[k]} :: 0 <= k < |contacts| ==> contacts[k].at <= clock)
    && (contacts != [] ==> contacts[0].Failure?)
    && (forall j, k {:trigger Follows(contacts[j], contacts[k])} ::
          0 <= j < |contacts| && 0 <= k < |contacts| && k == j + 1 ==> Follows(contacts[j], contacts[k]))
  }

  /** When calls have raised, oldest first. */
  function FailureTimes(contacts: seq<Contact>): seq<Instant> {
    if contacts == [] then []
    else
      var earlier, last := FailureTimes(contacts[..|contacts| - 1]), contacts[|contacts| - 1];
      if last.Failure? then earlier + [last.at] else earlier
  }

  /** The client and the time of the last failure are what the contacts say. */
  ghost predicate ContactsOk(s: State) {
    && ContactsFollow(s.contacts, s.clock)
    && (s.connected <==> s.configured && LastIsGood(s.contacts))
    && s.lastFailure == (if LastIsGood(s.contacts) then None else Some(s.contacts[|s.contacts| - 1].at))
    && (!s.configured ==> s.contacts == [])
    && Times(s.log, AnyFailOpen) == FailureTimes(s.contacts)
  }

  /** Without a configured Redis nothing is ever admitted through it. */
  ghost predicate OnlyMemory(s: State) {
    !s.configured ==> !s.connected && forall k :: 0 <= k < |s.log| ==> s.log[k].via == Memory
  }

  ghost predicate Sound(s: State) {
    && MemoryOk(s.log, s.clock, s.limit)
    && CountersOk(s.log, s.counters, s.limit)
    && FailuresOk(s)
    && ContactsOk(s)
    && OnlyMemory(s)
  }

  lemma InitiallySound(limit: nat, configured: bool)
    ensures Sound(Initial(limit, configured))
  {
  }

  // ---------------------------------------------- the parts, write by write

  lemma MemoryLater(log: seq<Admission>, clock: Instant, now: Instant, limit: nat)
    requires MemoryOk(log, clock, limit) && clock <= now
    ensures MemoryOk(log, now, limit)
  {
    forall ip ensures HistoryOk(log, ip, now, limit) {
      assert HistoryOk(log, ip, clock, limit);
    }
  }

  /** An admission that is not in memory leaves every in-memory history alone. */
  lemma MemoryIgnores(log: seq<Admission>, clock: Instant, limit: nat, a: Admission)
    requires MemoryOk(log, clock, limit) && a.via != Memory
    ensures MemoryOk(log + [a], clock, limit)
  {
    forall ip ensures HistoryOk(log + [a], ip, clock, limit) {
      assert HistoryOk(log, ip, clock, limit);
      TimesOfAppend(log, a, MemoryOf(ip));
    }
  }

  lemma MemoryAdmits(s: State, ip: string, at: Instant)
    requires MemoryOk(s.log, at, s.limit) && HasRoom(s, ip, at)
    ensures MemoryOk(s.log + [Admission(ip, at, Memory)], at, s.limit)
  {
    var a := Admission(ip, at, Memory);
    forall other ensures HistoryOk(s.log + [a], other, at, s.limit) {
      assert HistoryOk(s.log, other, at, s.limit);
      if other == ip {
        HistoryAdmits(s, ip, at);
      } else {
        TimesOfAppend(s.log, a, MemoryOf(other));
      }
    }
  }

  lemma HistoryAdmits(s: State, ip: string, at: Instant)
    requires HistoryOk(s.log, ip, at, s.limit) && HasRoom(s, ip, at)
    ensures HistoryOk(s.log + [Admission(ip, at, Memory)], ip, at, s.limit)
  {
    TimesOfAppend(s.log, Admission(ip, at, Memory), MemoryOf(ip));
    AdmissionKeepsSpacing(Times(s.log, MemoryOf(ip)), at, s.limit, WINDOW);
  }

  lemma CountersIgnore(log: seq<Admission>, counters: Counters, limit: nat, a: Admission)
    requires CountersOk(log, counters, limit) && !a.via.Redis?
    ensures CountersOk(log + [a], counters, limit)
  {
    forall ip, b ensures KeyOk(log + [a], counters, limit, ip, b) {
      assert KeyOk(log, counters, limit, ip, b);
      TimesOfAppend(log, a, RedisOf(ip, b));
    }
  }

  /** The expiry set on the first increment of a bucket outlasts the bucket, so a
      counter never disappears while it is still being counted against. */
  lemma KeyOutlivesBucket(key: RedisKey, at: Instant)
    requires BucketOf(at) == BucketOf(key.created)
    ensures !key.Gone(at)
  {
    assert at / WINDOW - key.created / WINDOW < 1.0;
  }

  lemma LiveWhileCounted(log: seq<Admission>, counters: Counters, limit: nat, ip: string, at: Instant)
    requires CountersOk(log, counters, limit)
    ensures var b := BucketOf(at);
      CountAt(counters, ip, b, at) == if (ip, b) in counters then counters[(ip, b)].count else 0
  {
    var b := BucketOf(at);
    assert KeyOk(log, counters, limit, ip, b);
    if (ip, b) in counters {
      KeyOutlivesBucket(counters[(ip, b)], at);
    }
  }

  lemma IncrementCounts(log: seq<Admission>, counters: Counters, limit: nat,
                        ip: string, b: int, n: nat, at: Instant, expires: bool)
    requires CountersOk(log, counters, limit) && (n > 0 ==> BucketOf(at) == b)
    ensures CountersOk(log, Increment(counters, ip, b, n, at, expires), limit)
    ensures n > 0 ==>
      CountAt(Increment(counters, ip, b, n, at, expires), ip, b, at) == CountAt(counters, ip, b, at) + n
  {
    var counters' := Increment(counters, ip, b, n, at, expires);
    if n > 0 {
      LiveWhileCounted(log, counters, limit, ip, at);
      assert KeyOk(log, counters, limit, ip, b);
    }
    forall i, c ensures KeyOk(log, counters', limit, i, c) {
      assert KeyOk(log, counters, limit, i, c);
    }
    if n > 0 {
      LiveWhileCounted(log, counters', limit, ip, at);
    }
  }

  /** What this process's increment returns: everybody's increments and its own. */
  lemma CountedKeepsOk(s: State, r: Request)
    requires CountersOk(s.log, s.counters, s.limit) && r.Timely(s.clock)
    ensures CountersOk(s.log, Counted(s, r), s.limit)
    ensures CountSeen(s, r) == CountAt(s.counters, r.ip, BucketOf(r.t.act), r.t.act) + r.others.count + 1
    ensures |Times(s.log, RedisOf(r.ip, BucketOf(r.t.act)))| < CountSeen(s, r)
  {
    var b := BucketOf(r.t.act);
    var seen := Increment(s.counters, r.ip, b, r.others.count, r.others.first, r.others.expires);
    IncrementCounts(s.log, s.counters, s.limit, r.ip, b, r.others.count, r.others.first, r.others.expires);
    IncrementCounts(s.log, seen, s.limit, r.ip, b, 1, r.t.act, !r.faults.expire);
    LiveWhileCounted(s.log, s.counters, s.limit, r.ip, r.t.act);
    LiveWhileCounted(s.log, s.counters, s.limit, r.ip, r.others.first);
    LiveWhileCounted(s.log, seen, s.limit, r.ip, r.t.act);
    LiveWhileCounted(s.log, seen, s.limit, r.ip, r.others.first);
    assert KeyOk(s.log, s.counters, s.limit, r.ip, b);
  }

  lemma RedisAdmits(log: seq<Admission>, counters: Counters, limit: nat, ip: string, at: Instant)
    requires CountersOk(log, counters, limit)
    requires |Times(log, RedisOf(ip, BucketOf(at)))| < CountAt(counters, ip, BucketOf(at), at) <= limit
    ensures CountersOk(log + [Admission(ip, at, Redis(BucketOf(at)))], counters, limit)
  {
    var a := Admission(ip, at, Redis(BucketOf(at)));
    forall i, b ensures KeyOk(log + [a], counters, limit, i, b) {
      assert KeyOk(log, counters, limit, i, b);
      TimesOfAppend(log, a, RedisOf(i, b));
    }
  }

  lemma FailuresLater(s: State, now: Instant)
    requires FailuresOk(s) && s.clock <= now
    ensures FailuresOk(s.(clock := now))
  {
  }

  lemma FailuresIgnore(s: State, a: Admission)
    requires a.via != FailOpen
    ensures FailuresOk(s) ==> FailuresOk(s.(log := s.log + [a]))
    ensures ContactsOk(s) ==> ContactsOk(s.(log := s.log + [a]))
  {
    TimesOfAppend(s.log, a, AnyFailOpen);
  }

  lemma FailureIsSpaced(s: State, ip: string, now: Instant)
    requires FailuresOk(s) && s.connected && s.clock <= now
    ensures FailuresOk(FailedOpen(s, ip, now))
  {
    var h := Times(s.log, AnyFailOpen);
    TimesOfAppend(s.log, Admission(ip, now, FailOpen), AnyFailOpen);
    LaterEntryIsAscending(h, now);
    NextGap(h, now);
  }

  lemma OneMoreContact(contacts: seq<Contact>, c: Contact, clock: Instant)
    requires ContactsFollow(contacts, clock) && clock <= c.at
    requires if contacts == [] then c.Failure? else Follows(contacts[|contacts| - 1], c)
    ensures ContactsFollow(contacts + [c], c.at)
  {
    var contacts' := contacts + [c];
    forall j, k | 0 <= j < |contacts'| && 0 <= k < |contacts'| && k == j + 1
      ensures Follows(contacts'[j], contacts'[k])
    {
      if k < |contacts| {
        assert Follows(contacts[j], contacts[k]);
      }
    }
  }

  lemma FailureTimesOfAppend(contacts: seq<Contact>, c: Contact)
    ensures FailureTimes(contacts + [c]) == FailureTimes(contacts) + if c.Failure? then [c.at] else []
  {
    assert (contacts + [c])[..|contacts|] == contacts;
  }

  lemma FailureIsAContact(s: State, ip: string, now: Instant)
    requires ContactsOk(s) && s.connected && s.clock <= now
    ensures ContactsOk(FailedOpen(s, ip, now))
  {
    OneMoreContact(s.contacts, Failure(now), s.clock);
    FailureTimesOfAppend(s.contacts, Failure(now));
    TimesOfAppend(s.log, Admission(ip, now, FailOpen), AnyFailOpen);
  }

  lemma PingIsAContact(s: State, r: Request)
    requires ContactsOk(s) && r.Timely(s.clock)
    ensures ContactsOk(Reconnected(s, r))
  {
    if !s.connected && s.lastFailure.Some? && DueForRetry(s, r.t.check) {
      OneMoreContact(s.contacts, Ping(r.t.pinged, !r.faults.ping), s.clock);
      FailureTimesOfAppend(s.contacts, Ping(r.t.pinged, !r.faults.ping));
    }
  }

  lemma NextGap(h: seq<Instant>, now: Instant)
    requires Gapped(h) && (h == [] || now - h[|h| - 1] >= RETRY)
    ensures Gapped(h + [now])
  {
    var h' := h + [now];
    forall i, j | 0 <= i < |h'| && 0 <= j < |h'| && j == i + 1 ensures GapOk(h', i, j) {
      if j < |h| {
        assert GapOk(h, i, j);
      }
    }
  }

  // ------------------------------------------------- every request keeps it

  lemma ReconnectedKeepsSound(s: State, r: Request)
    requires Sound(s) && r.Timely(s.clock)
    ensures Sound(Reconnected(s, r))
    ensures s.clock <= Reconnected(s, r).clock <= r.t.act
    ensures Reconnected(s, r).log == s.log && Reconnected(s, r).counters == s.counters
  {
    MemoryLater(s.log, s.clock, Reconnected(s, r).clock, s.limit);
    PingIsAContact(s, r);
  }

  lemma InMemoryKeepsSound(s: State, r: Request)
    requires Sound(s) && s.clock <= r.t.act <= r.t.failed && !s.connected
    ensures Sound(InMemory(s, r))
  {
    var a := Admission(r.ip, r.t.act, Memory);
    MemoryLater(s.log, s.clock, r.t.act, s.limit);
    MemoryLater(s.log, s.clock, r.t.failed, s.limit);
    FailuresLater(s, r.t.failed);
    FailuresIgnore(s.(clock := r.t.failed), a);
    if HasRoom(s, r.ip, r.t.act) {
      MemoryAdmits(s, r.ip, r.t.act);
      MemoryLater(s.log + [a], r.t.act, r.t.failed, s.limit);
      CountersIgnore(s.log, s.counters, s.limit, a);
    }
  }

  lemma FailedOpenKeepsSound(s: State, ip: string, at: Instant)
    requires Sound(s) && s.connected && s.clock <= at
    ensures Sound(FailedOpen(s, ip, at))
  {
    var a := Admission(ip, at, FailOpen);
    MemoryLater(s.log, s.clock, at, s.limit);
    MemoryIgnores(s.log, at, s.limit, a);
    CountersIgnore(s.log, s.counters, s.limit, a);
    FailureIsSpaced(s, ip, at);
    FailureIsAContact(s, ip, at);
  }

  lemma ThroughRedisKeepsSound(s: State, r: Request)
    requires Sound(s) && s.connected && s.clock <= r.t.act <= r.t.failed
    requires r.others.count > 0 ==> BucketOf(r.others.first) == BucketOf(r.t.act)
    ensures Sound(ThroughRedis(s, r))
  {
    if r.faults.incr {
      FailedOpenKeepsSound(s, r.ip, r.t.failed);
    } else {
      var s' := s.(counters := Counted(s, r));
      CountingKeepsSound(s, r);
      if CountSeen(s, r) == 1 && r.faults.expire {
        FailedOpenKeepsSound(s', r.ip, r.t.failed);
      } else {
        WaitingKeepsSound(s', r.t.failed);
        if CountSeen(s, r) <= s.limit {
          AdmittedThroughRedisKeepsSound(s', r);
        }
      }
    }
  }

  lemma CountingKeepsSound(s: State, r: Request)
    requires Sound(s) && s.connected && s.clock <= r.t.act <= r.t.failed
    requires r.others.count > 0 ==> BucketOf(r.others.first) == BucketOf(r.t.act)
    ensures Sound(s.(counters := Counted(s, r)))
    ensures |Times(s.log, RedisOf(r.ip, BucketOf(r.t.act)))| < CountSeen(s, r)
  {
    var r' := r.(t := Clock(s.clock, s.clock, r.t.act, r.t.failed));
    assert Counted(s, r') == Counted(s, r);
    CountedKeepsOk(s, r');
  }

  lemma WaitingKeepsSound(s: State, now: Instant)
    requires Sound(s) && s.clock <= now
    ensures Sound(s.(clock := now))
  {
    MemoryLater(s.log, s.clock, now, s.limit);
    FailuresLater(s, now);
  }

  /** A request that Redis has counted and that is within the limit. */
  lemma AdmittedThroughRedisKeepsSound(s: State, r: Request)
    requires Sound(s) && s.connected && s.clock <= r.t.act <= r.t.failed
    requires var b := BucketOf(r.t.act);
      |Times(s.log, RedisOf(r.ip, b))| < CountAt(s.counters, r.ip, b, r.t.act) <= s.limit
    ensures Sound(s.(log := s.log + [Admission(r.ip, r.t.act, Redis(BucketOf(r.t.act)))], clock := r.t.failed))
  {
    var a := Admission(r.ip, r.t.act, Redis(BucketOf(r.t.act)));
    var later := s.(clock := r.t.failed);
    WaitingKeepsSound(s, r.t.failed);
    MemoryIgnores(s.log, r.t.failed, s.limit, a);
    FailuresIgnore(later, a);
    RedisAdmits(s.log, s.counters, s.limit, r.ip, r.t.act);
  }

  lemma ServeKeepsSound(s: State, r: Request)
    requires Sound(s) && r.Timely(s.clock)
    ensures Sound(Serve(s, r)) && Serve(s, r).clock == r.t.failed
    ensures Serve(s, r).limit == s.limit && Serve(s, r).configured == s.configured
  {
    ReconnectedKeepsSound(s, r);
    var s' := Reconnected(s, r);
    if s'.connected {
      ThroughRedisKeepsSound(s', r);
    } else {
      InMemoryKeepsSound(s', r);
    }
  }

  lemma {:induction false} RunKeepsSound(s: State, rs: seq<Request>)
    requires Sound(s) && TimelyRun(s.clock, rs)
    ensures Sound(Run(s, rs)) && Run(s, rs).limit == s.limit && Run(s, rs).configured == s.configured
    decreases |rs|
  {
    if rs == [] {
    } else {
      ServeKeepsSound(s, rs[0]);
      RunKeepsSound(Serve(s, rs[0]), rs[1..]);
    }
  }

  // ---------------------------------------------------------------- the bound

  /** Admissions of one IP in the closed minute from `from`. */
  function InMinute(s: State, ip: string, from: Instant): nat {
    CountIn(Times(s.log, OfIp(ip)), from, from + WINDOW)
  }

  /** An instant of a closed 60-second interval falls in one of two aligned buckets. */
  lemma TwoBuckets(from: Instant, at: Instant)
    requires from <= at <= from + WINDOW
    ensures BucketOf(at) == BucketOf(from) || BucketOf(at) == BucketOf(from) + 1
  {
    assert from / WINDOW <= at / WINDOW <= from / WINDOW + 1.0;
  }

  lemma {:induction false} CountSplits(log: seq<Admission>, ip: string, from: Instant)
    requires forall k :: 0 <= k < |log| && log[k].via.Redis? ==> log[k].via.bucket == BucketOf(log[k].at)
    ensures var b, to := BucketOf(from), from + WINDOW;
      CountIn(Times(log, OfIp(ip)), from, to)
      <= |Times(log, RedisOf(ip, b))| + |Times(log, RedisOf(ip, b + 1))|
         + CountIn(Times(log, MemoryOf(ip)), from, to) + CountIn(Times(log, AnyFailOpen), from, to)
    decreases |log|
  {
    if log == [] {
    } else {
      var b, to, rest := BucketOf(from), from + WINDOW, log[..|log| - 1];
      CountSplits(rest, ip, from);
      CountOfLast(log, OfIp(ip), from, to);
      CountOfLast(log, MemoryOf(ip), from, to);
      CountOfLast(log, AnyFailOpen, from, to);
      var last := log[|log| - 1];
      if from <= last.at <= to {
        TwoBuckets(from, last.at);
      }
    }
  }

  lemma CountOfLast(log: seq<Admission>, which: Selector, from: Instant, to: Instant)
    requires log != []
    ensures var last := log[|log| - 1];
      CountIn(Times(log, which), from, to)
      == CountIn(Times(log[..|log| - 1], which), from, to) + if which.Picks(last) && from <= last.at <= to then 1 else 0
  {
    CountOfAppend(Times(log[..|log| - 1], which), log[|log| - 1].at, from, to);
  }

  lemma GapsAddUp(h: seq<Instant>, i: nat)
    requires Gapped(h) && i + 3 < |h|
    ensures h[i + 3] - h[i] >= 3.0 * RETRY
  {
    assert GapOk(h, i, i + 1) && GapOk(h, i + 1, i + 2) && GapOk(h, i + 2, i + 3);
  }

  lemma GappedBound(h: seq<Instant>, from: Instant)
    requires Ascending(h) && Gapped(h)
    ensures CountIn(h, from, from + WINDOW) <= 3
  {
    var lo, hi := CountIsSlice(h, from, from + WINDOW);
    if hi - lo > 3 {
      GapsAddUp(h, lo);
    }
  }

  /** Per IP, any closed minute holds at most 3 * limit + 3 admissions of one
      process: two Redis buckets, one in-memory window and three failures. */
  lemma MinuteBound(s: State, ip: string, from: Instant)
    requires Sound(s)
    ensures InMinute(s, ip, from) <= 3 * s.limit + 3
  {
    var b := BucketOf(from);
    CountSplits(s.log, ip, from);
    assert KeyOk(s.log, s.counters, s.limit, ip, b) && KeyOk(s.log, s.counters, s.limit, ip, b + 1);
    assert HistoryOk(s.log, ip, s.clock, s.limit);
    IntervalBound(Times(s.log, MemoryOf(ip)), s.limit, WINDOW, from, from + WINDOW, 1);
    GappedBound(Times(s.log, AnyFailOpen), from);
  }

  lemma {:induction false} MemoryIsAll(log: seq<Admission>, ip: string)
    requires forall k :: 0 <= k < |log| ==> log[k].via == Memory
    ensures Times(log, OfIp(ip)) == Times(log, MemoryOf(ip))
  {
    if log == [] {
    } else {
      MemoryIsAll(log[..|log| - 1], ip);
    }
  }

  /** Without Redis the configured limit does hold in every closed minute. */
  lemma LimitHoldsWithoutRedis(s: State, ip: string, from: Instant)
    requires Sound(s) && !s.configured
    ensures InMinute(s, ip, from) <= s.limit
  {
    MemoryIsAll(s.log, ip);
    assert HistoryOk(s.log, ip, s.clock, s.limit);
    IntervalBound(Times(s.log, MemoryOf(ip)), s.limit, WINDOW, from, from + WINDOW, 1);
  }
}
