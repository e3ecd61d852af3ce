/**
  The per-subject limiter: a dictionary of deques, one per limiter instance.
  `log` is everything it has ever admitted, by what the requests presented; a
  deque only ever holds the end of what one quota has spent.
 */
module SubjectRateLimit {
  import opened Base
  import opened SlidingWindow

  /** The key of the dictionary. */
  function Subject(authSubject: Option<string>): string {
    if authSubject.Some? && authSubject.value != "" then authSubject.value else "anonymous"
  }

  type Deques = map<string, seq<Instant>>

  function Deque(buckets: Deques, key: string): seq<Instant> {
    if key in buckets then buckets[key] else []
  }

  // ------------------------------------------------------------------ quotas

  /** No subject, an empty one, and one that is called "anonymous". */
  predicate Nameless(who: Option<string>) {
    who == None || who == Some("") || who == Some("anonymous")
  }

  /** Every subject has a quota of its own; the nameless share one. */
  predicate SameQuota(a: Option<string>, b: Option<string>) {
    a == b || (Nameless(a) && Nameless(b))
  }

  lemma KeysAreQuotas(a: Option<string>, b: Option<string>)
    ensures Subject(a) == Subject(b) <==> SameQuota(a, b)
  {
  }

  datatype Admission = Admission(who: Option<string>, at: Instant)

  /** When the quota of `who` was drawn on, oldest first. */
  function Spent(log: seq<Admission>, who: Option<string>): seq<Instant> {
    if log == [] then []
    else
      var earlier, last := Spent(log[..|log| - 1], who), log[|log| - 1];
      if SameQuota(last.who, who) then earlier + [last.at] else earlier
  }

  lemma SpentOfAppend(log: seq<Admission>, a: Admission, who: Option<string>)
    ensures Spent(log + [a], who) == if SameQuota(a.who, who) then Spent(log, who) + [a.at] else Spent(log, who)
  {
    assert (log + [a])[..|log|] == log;
  }

  lemma {:induction false} SameQuotaSameSpent(log: seq<Admission>, a: Option<string>, b: Option<string>)
    requires SameQuota(a, b)
    ensures Spent(log, a) == Spent(log, b)
  {
    if log == [] {
    } else {
      SameQuotaSameSpent(log[..|log| - 1], a, b);
    }
  }

  /** The admissions in the closed interval of the requests that presented exactly `who`. */
  function OwnCount(log: seq<Admission>, who: Option<string>, from: Instant, to: Instant): nat {
    if log == [] then 0
    else
      var last := log[|log| - 1];
      OwnCount(log[..|log| - 1], who, from, to) + if last.who == who && from <= last.at <= to then 1 else 0
  }

  /** What counts against a request: for a subject with a name the admissions of the
      very same subject, otherwise those of all three nameless ones. */
  lemma {:induction false} QuotaCounts(log: seq<Admission>, who: Option<string>, from: Instant, to: Instant)
    ensures CountIn(Spent(log, who), from, to)
            == if who.Some? && who.value != "" && who.value != "anonymous" then OwnCount(log, who, from, to)
               else OwnCount(log, None, from, to) + OwnCount(log, Some(""), from, to)
                    + OwnCount(log, Some("anonymous"), from, to)
  {
    if log == [] {
    } else {
      var init, last := log[..|log| - 1], log[|log| - 1];
      QuotaCounts(init, who, from, to);
      CountOfAppend(Spent(init, who), last.at, from, to);
    }
  }

  // ------------------------------------------------------------- the limiter

  class RateLimiter {
    const window: real
    const limit: nat
    var buckets: Deques

    ghost var log: seq<Admission>
    ghost var clock: Instant

    ghost predicate Keeps(who: Option<string>)
      reads this
    {
      KeptEnd(Spent(log, who), Deque(buckets, Subject(who)), clock, limit, window)
    }

    ghost predicate Valid()
      reads this
    {
      window >= 0.0 && forall who :: Keeps(who)
    }

    constructor (windowSeconds: nat, maxRequests: nat)
      ensures Valid() && window == windowSeconds as real && limit == maxRequests
      ensures log == []
    {
      window := windowSeconds as real;
      limit := maxRequests;
      buckets := map[];
      log := [];
      clock := 0.0;
    }

    /** The answer a request would get: the quota has room in the last window. */
    ghost predicate HasRoom(who: Option<string>, now: Instant)
      reads this
    {
      CountIn(Spent(log, who), now - window, now) < limit
    }

    /** Admits a request exactly when the whole history of its quota holds fewer than
        `limit` admissions in the last window, and then records it; the deque is then
        that window.  The answers to other quotas, at any time, stay what they were. */
    method Check(authSubject: Option<string>, now: Instant) returns (admitted: bool)
      requires Valid() && clock <= now
      modifies this
      ensures Valid() && clock == now
      ensures admitted == old(HasRoom(authSubject, now))
      ensures log == if admitted then old(log) + [Admission(authSubject, now)] else old(log)
      ensures Deque(buckets, Subject(authSubject)) == Recent(Spent(log, authSubject), now, window)
      ensures forall other, at :: !SameQuota(authSubject, other) ==> HasRoom(other, at) == old(HasRoom(other, at))
    {
      ghost var before := log;
      QuotaAfterEviction(authSubject, now);
      OthersKeep(authSubject, now);
      var bucket := Evict(Deque(buckets, Subject(authSubject)), now, window);
      admitted := |bucket| < limit;
      if admitted {
        bucket := bucket + [now];
        log := log + [Admission(authSubject, now)];
        SpentOfAppend(before, Admission(authSubject, now), authSubject);
      }
      forall other | !SameQuota(authSubject, other) ensures Spent(log, other) == Spent(before, other) {
        SpentOfAppend(before, Admission(authSubject, now), other);
      }
      Store(authSubject, bucket, now);
    }

    lemma QuotaAfterEviction(who: Option<string>, now: Instant)
      requires Valid() && clock <= now
      ensures var h, kept := Spent(log, who), Recent(Deque(buckets, Subject(who)), now, window);
        && kept == Recent(h, now, window) && |kept| == CountIn(h, now - window, now)
        && KeptEnd(h, kept, now, limit, window)
        && (|kept| < limit ==> KeptEnd(h + [now], kept + [now], now, limit, window)
                               && Recent(h + [now], now, window) == kept + [now])
    {
      var h := Spent(log, who);
      assert Keeps(who);
      EvictionKeepsEnd(h, Deque(buckets, Subject(who)), clock, now, limit, window);
      if |Recent(h, now, window)| < limit {
        AppendKeepsEnd(h, Recent(h, now, window), now, limit, window);
      }
    }

    lemma OthersKeep(who: Option<string>, now: Instant)
      requires Valid() && clock <= now
      ensures forall other :: !SameQuota(who, other) ==>
                KeptEnd(Spent(log, other), Deque(buckets, Subject(other)), now, limit, window)
    {
      forall other | !SameQuota(who, other)
        ensures KeptEnd(Spent(log, other), Deque(buckets, Subject(other)), now, limit, window)
      {
        assert Keeps(other);
        LaterKeepsEnd(Spent(log, other), Deque(buckets, Subject(other)), clock, now, limit, window);
      }
    }

    method Store(who: Option<string>, bucket: seq<Instant>, now: Instant)
      requires window >= 0.0 && KeptEnd(Spent(log, who), bucket, now, limit, window)
      requires forall other :: !SameQuota(who, other) ==>
                 KeptEnd(Spent(log, other), Deque(buckets, Subject(other)), now, limit, window)
      modifies this`buckets, this`clock
      ensures Valid() && clock == now && Deque(buckets, Subject(who)) == bucket
    {
      buckets := buckets[Subject(who) := bucket];
      clock := now;
      forall other ensures Keeps(other) {
        KeysAreQuotas(who, other);
        if SameQuota(who, other) {
          SameQuotaSameSpent(log, who, other);
        }
      }
    }

    /** At most k * limit admissions of one quota in any closed interval of at most k
        windows, whatever the request pattern. */
    lemma AdmissionsAreBounded(who: Option<string>, from: Instant, to: Instant, k: nat)
      requires Valid() && k > 0 && to - from <= k as real * window
      ensures CountIn(Spent(log, who), from, to) <= k * limit
    {
      assert Keeps(who);
      IntervalBound(Spent(log, who), limit, window, from, to, k);
    }

    /** A subject with a name is judged by its own admissions and nobody else's. */
    lemma NamedSubjectsAreIndependent(name: string, now: Instant)
      requires name != "" && name != "anonymous"
      ensures HasRoom(Some(name), now) <==> OwnCount(log, Some(name), now - window, now) < limit
    {
      QuotaCounts(log, Some(name), now - window, now);
    }

    /** Requests without a subject, with an empty one and as "anonymous" share a quota. */
    lemma TheNamelessShare(who: Option<string>, now: Instant)
      requires who in {None, Some(""), Some("anonymous")}
      ensures HasRoom(who, now) <==>
        OwnCount(log, None, now - window, now) + OwnCount(log, Some(""), now - window, now)
        + OwnCount(log, Some("anonymous"), now - window, now) < limit
    {
      QuotaCounts(log, who, now - window, now);
    }
  }

  /** The two limiters of account deletion, in order, each with its own reading of the
      clock: a refusal by the first ends the request, so the second records nothing.
      They share no deque: each decides by its own history alone. */
  method CheckDeletion(admin: RateLimiter, deletion: RateLimiter, authSubject: Option<string>, first: Instant,
                       second: Instant) returns (admitted: bool)
    requires admin != deletion && admin.Valid() && deletion.Valid()
    requires admin.clock <= first <= second && deletion.clock <= second
    modifies admin, deletion
    ensures admin.Valid() && deletion.Valid()
    ensures var adminOk := old(admin.HasRoom(authSubject, first));
      var deletionOk := old(deletion.HasRoom(authSubject, second));
      && (admitted <==> adminOk && deletionOk)
      && admin.log == (if adminOk then old(admin.log) + [Admission(authSubject, first)] else old(admin.log))
      && deletion.log == (if admitted then old(deletion.log) + [Admission(authSubject, second)] else old(deletion.log))
      && (!adminOk ==> deletion.buckets == old(deletion.buckets) && deletion.clock == old(deletion.clock))
  {
    admitted := admin.Check(authSubject, first);
    if admitted {
      admitted := deletion.Check(authSubject, second);
    }
  }
}
