/**
  When the per-IP limiter talks to Redis: which path every request takes, from what
  has happened before alone, and how far apart the attempts to reconnect are.
 */
module IpRateRetries {
  import opened Base
  import opened SlidingWindow
  import opened IpRateLimit

  // ------------------------------------------------- attempts over whole runs

  lemma {:induction false} LaterContactsFollow(contacts: seq<Contact>, clock: Instant, i: nat, j: nat)
    requires ContactsFollow(contacts, clock) && i < j < |contacts|
    ensures contacts[i].at <= contacts[j].at
    ensures contacts[j].Ping? ==> contacts[j].at - contacts[i].at >= 30.0
    decreases j
  {
    assert Follows(contacts[j - 1], contacts[j]);
    if i == j - 1 {
    } else {
      LaterContactsFollow(contacts, clock, i, j - 1);
    }
  }

  /** In every run, an attempt to reconnect comes at least thirty seconds after every
      attempt and every failure before it. */
  lemma AttemptsAreSpaced(limit: nat, configured: bool, rs: seq<Request>, i: nat, j: nat)
    requires TimelyRun(0.0, rs)
    requires i < j < |Run(Initial(limit, configured), rs).contacts|
    requires Run(Initial(limit, configured), rs).contacts[j].Ping?
    ensures var contacts := Run(Initial(limit, configured), rs).contacts; contacts[j].at - contacts[i].at >= 30.0
  {
    var s := Run(Initial(limit, configured), rs);
    InitiallySound(limit, configured);
    RunKeepsSound(Initial(limit, configured), rs);
    LaterContactsFollow(s.contacts, s.clock, i, j);
  }

  // ------------------------------------------------------ one request, by history

  /** The next contact is due: the last one was bad and is thirty seconds old. */
  predicate Due(s: State, r: Request) {
    s.configured && !LastIsGood(s.contacts) && r.t.check - s.contacts[|s.contacts| - 1].at >= 30.0
  }

  /** Redis is asked: nothing bad has been heard of it, or it has just answered. */
  predicate Asked(s: State, r: Request) {
    s.configured && (LastIsGood(s.contacts) || (Due(s, r) && !r.faults.ping))
  }

  /** What the increment returns: everything counted in this minute, and one. */
  function Seen(s: State, r: Request): nat {
    CountAt(s.counters, r.ip, (r.t.act / 60.0).Floor, r.t.act) + r.others.count + 1
  }

  /** A call raises: the increment, or setting the expiry, which only the first needs. */
  predicate Raises(s: State, r: Request) {
    r.faults.incr || (r.faults.expire && Seen(s, r) == 1)
  }

  function AttemptOf(s: State, r: Request): seq<Contact> {
    if Due(s, r) then [Ping(r.t.pinged, !r.faults.ping)] else []
  }

  lemma ReconnectsWhenDue(s: State, r: Request)
    requires Sound(s) && r.Timely(s.clock)
    ensures var mid := Reconnected(s, r);
      mid.contacts == s.contacts + AttemptOf(s, r) && (mid.connected <==> Asked(s, r))
  {
    assert s.contacts + [] == s.contacts;
  }

  lemma ThroughRedisByHistory(s: State, r: Request)
    requires Sound(s) && s.connected && s.clock <= r.t.act <= r.t.failed
    requires r.others.count > 0 ==> BucketOf(r.others.first) == BucketOf(r.t.act)
    ensures var s' := ThroughRedis(s, r);
      if Raises(s, r) then
        s'.contacts == s.contacts + [Failure(r.t.failed)] && s'.log == s.log + [Admission(r.ip, r.t.failed, FailOpen)]
      else
        && s'.contacts == s.contacts
        && s'.log == if Seen(s, r) <= s.limit
                     then s.log + [Admission(r.ip, r.t.act, Redis((r.t.act / 60.0).Floor))] else s.log
  {
    var r' := r.(t := Clock(s.clock, s.clock, r.t.act, r.t.failed));
    CountedKeepsOk(s, r');
    assert CountSeen(s, r') == CountSeen(s, r);
  }

  /** Every request, for every combination of failures: an attempt is made exactly when
      one is due; Redis decides exactly when it is asked, letting the request pass if a
      call raises; otherwise the last minute of the IP's in-memory history decides. */
  lemma ServeByHistory(s: State, r: Request)
    requires Sound(s) && r.Timely(s.clock)
    ensures var s' := Serve(s, r);
      if Asked(s, r) && Raises(s, r) then
        && s'.contacts == s.contacts + AttemptOf(s, r) + [Failure(r.t.failed)]
        && s'.log == s.log + [Admission(r.ip, r.t.failed, FailOpen)]
      else if Asked(s, r) then
        && s'.contacts == s.contacts + AttemptOf(s, r)
        && s'.log == if Seen(s, r) <= s.limit
                     then s.log + [Admission(r.ip, r.t.act, Redis((r.t.act / 60.0).Floor))] else s.log
      else
        && s'.contacts == s.contacts + AttemptOf(s, r)
        && s'.log == if CountIn(Times(s.log, MemoryOf(r.ip)), r.t.act - 60.0, r.t.act) < s.limit
                     then s.log + [Admission(r.ip, r.t.act, Memory)] else s.log
  {
    var mid := Reconnected(s, r);
    ReconnectsWhenDue(s, r);
    ReconnectedKeepsSound(s, r);
    if mid.connected {
      ThroughRedisByHistory(mid, r);
    }
  }

  // ----------------------------------------------------------- while Redis is away

  predicate ChecksBefore(rs: seq<Request>, end: Instant) {
    forall k :: 0 <= k < |rs| ==> rs[k].t.check < end
  }

  /** Everything from the n-th admission on was let through from memory. */
  ghost predicate MemoryFrom(log: seq<Admission>, n: nat) {
    n <= |log| && forall k :: n <= k < |log| ==> log[k].via == Memory
  }

  lemma {:induction false} MemoryUntilRetry(s: State, rs: seq<Request>)
    requires Sound(s) && TimelyRun(s.clock, rs) && !LastIsGood(s.contacts)
    requires ChecksBefore(rs, s.contacts[|s.contacts| - 1].at + 30.0)
    ensures var end := Run(s, rs);
      !end.connected && end.contacts == s.contacts && s.log <= end.log && MemoryFrom(end.log, |s.log|)
    decreases |rs|
  {
    if rs == [] {
    } else {
      ServeByHistory(s, rs[0]);
      ServeKeepsSound(s, rs[0]);
      assert s.contacts + [] == s.contacts;
      forall k | 0 <= k < |rs[1..]| ensures rs[1..][k].t.check < s.contacts[|s.contacts| - 1].at + 30.0 {
        assert rs[1..][k] == rs[k + 1];
      }
      MemoryUntilRetry(Serve(s, rs[0]), rs[1..]);
    }
  }

  lemma MemoryFromEarlier(log: seq<Admission>, later: seq<Admission>, n: nat)
    requires log <= later && MemoryFrom(log, n) && MemoryFrom(later, |log|)
    ensures MemoryFrom(later, n)
  {
    forall k | n <= k < |later| ensures later[k].via == Memory {
      assert k < |log| ==> later[k] == log[k];
    }
  }

  lemma FailedAttempt(s: State, r: Request)
    requires Sound(s) && r.Timely(s.clock) && Due(s, r) && r.faults.ping
    ensures var next := Serve(s, r);
      next.contacts == s.contacts + [Ping(r.t.pinged, false)] && s.log <= next.log && MemoryFrom(next.log, |s.log|)
  {
    ServeByHistory(s, r);
  }

  /** After an attempt that fails, this request and every one that checks within thirty
      seconds is decided in memory, and no further attempt is made. */
  lemma FailedAttemptRestartsTheWait(s: State, r: Request, rs: seq<Request>)
    requires Sound(s) && r.Timely(s.clock) && Due(s, r) && r.faults.ping
    requires TimelyRun(r.t.failed, rs) && ChecksBefore(rs, r.t.pinged + 30.0)
    ensures var end := Run(Serve(s, r), rs);
      && !end.connected && end.contacts == s.contacts + [Ping(r.t.pinged, false)]
      && s.log <= end.log && MemoryFrom(end.log, |s.log|)
  {
    FailedAttempt(s, r);
    ServeKeepsSound(s, r);
    MemoryUntilRetry(Serve(s, r), rs);
    MemoryFromEarlier(Serve(s, r).log, Run(Serve(s, r), rs).log, |s.log|);
  }

  /** The same after a call to Redis has raised; that request itself has passed. */
  lemma FailureStartsTheWait(s: State, r: Request, rs: seq<Request>)
    requires Sound(s) && r.Timely(s.clock) && Asked(s, r) && Raises(s, r)
    requires TimelyRun(r.t.failed, rs) && ChecksBefore(rs, r.t.failed + 30.0)
    ensures var end := Run(Serve(s, r), rs);
      && !end.connected && end.contacts == s.contacts + AttemptOf(s, r) + [Failure(r.t.failed)]
      && s.log + [Admission(r.ip, r.t.failed, FailOpen)] <= end.log && MemoryFrom(end.log, |s.log| + 1)
  {
    ServeByHistory(s, r);
    ServeKeepsSound(s, r);
    MemoryUntilRetry(Serve(s, r), rs);
  }
}
