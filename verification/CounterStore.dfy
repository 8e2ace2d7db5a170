/** The counter methods of `SessionStore` (backend/src/session/store.rs) over their keys. */
module CounterStore {
  import opened Redis
  import opened Counters
  import opened LoginFailures
  import RateLimit

  /** What the hits of a key, in order, leave on record: their counter and the answers they got. */
  ghost predicate KeyOk(limits: map<string, Counter>, hits: map<string, seq<int>>, answers: map<string, seq<bool>>,
                        window: int, max: nat, now: int, key: string)
  {
    && key in limits && key in hits && key in answers
    && RateLimit.CountsHits(limits[key], hits[key], window, now)
    && RateLimit.Answers(answers[key], hits[key], window, max)
  }

  ghost predicate LimitsOk(limits: map<string, Counter>, hits: map<string, seq<int>>, answers: map<string, seq<bool>>,
                           window: int, max: nat, now: int)
  {
    && limits.Keys == hits.Keys == answers.Keys
    && forall key {:trigger KeyOk(limits, hits, answers, window, max, now, key)} ::
         key in limits ==> KeyOk(limits, hits, answers, window, max, now, key)
  }

  /** The counter and the records after one more hit. */
  lemma OneMoreHit(limits: map<string, Counter>, hits: map<string, seq<int>>, answers: map<string, seq<bool>>,
                   window: int, max: nat, now: int, key: string)
    requires LimitsOk(limits, hits, answers, window, max, now)
    ensures var c := Hit(if key in limits then limits[key] else Absent, now, window);
            var earlier := if key in hits then hits[key] else [];
            var given := if key in answers then answers[key] else [];
            && LimitsOk(limits[key := c], hits[key := earlier + [now]], answers[key := given + [c.n <= max]],
                        window, max, now)
            && (c.n <= max <==> |earlier| - RateLimit.BurstStart(earlier + [now], window, |earlier|) < max)
            && (c.n <= max <==> RateLimit.Accepted(earlier + [now], window, max, |earlier|))
  {
    var before := if key in limits then limits[key] else Absent;
    var earlier := if key in hits then hits[key] else [];
    var given := if key in answers then answers[key] else [];
    var c := Hit(before, now, window);
    assert key in limits ==> KeyOk(limits, hits, answers, window, max, now, key);
    RateLimit.NextHit(earlier, before, earlier + [now], window, max, now);
    RateLimit.NextAnswer(given, earlier, window, max, now, c.n <= max);
    OtherKeysStay(limits, hits, answers, window, max, now, key, c, earlier + [now], given + [c.n <= max]);
  }

  lemma OtherKeysStay(limits: map<string, Counter>, hits: map<string, seq<int>>, answers: map<string, seq<bool>>,
                      window: int, max: nat, now: int, key: string, c: Counter, times: seq<int>, given: seq<bool>)
    requires LimitsOk(limits, hits, answers, window, max, now)
    requires RateLimit.CountsHits(c, times, window, now) && RateLimit.Answers(given, times, window, max)
    ensures LimitsOk(limits[key := c], hits[key := times], answers[key := given], window, max, now)
  {
    var limits', hits', answers' := limits[key := c], hits[key := times], answers[key := given];
    forall x | x in limits' ensures KeyOk(limits', hits', answers', window, max, now, x) {
      assert x != key ==> KeyOk(limits, hits, answers, window, max, now, x);
    }
  }

  lemma TimeKeepsLimits(limits: map<string, Counter>, hits: map<string, seq<int>>, answers: map<string, seq<bool>>,
                        window: int, max: nat, now: int, t: int)
    requires LimitsOk(limits, hits, answers, window, max, now) && now <= t
    ensures LimitsOk(limits, hits, answers, window, max, t)
  {
    forall x | x in limits ensures KeyOk(limits, hits, answers, window, max, t, x) {
      assert KeyOk(limits, hits, answers, window, max, now, x);
    }
  }

  /** The counter of an account is what its failures leave. */
  ghost predicate LockOk(locks: map<UserId, Counter>, failures: map<UserId, seq<Failure>>, user: UserId) {
    user in locks && user in failures && locks[user] == LoginFailures.After(failures[user])
  }

  ghost predicate LocksOk(locks: map<UserId, Counter>, failures: map<UserId, seq<Failure>>) {
    && locks.Keys == failures.Keys
    && forall user {:trigger LockOk(locks, failures, user)} :: user in locks ==> LockOk(locks, failures, user)
  }

  lemma OneMoreFailure(locks: map<UserId, Counter>, failures: map<UserId, seq<Failure>>, user: UserId, f: Failure)
    requires LocksOk(locks, failures)
    ensures var c := Hit(if user in locks then locks[user] else Absent, f.at, f.window);
            var earlier := if user in failures then failures[user] else [];
            && LocksOk(locks[user := c], failures[user := earlier + [f]])
            && Value(Seen(c, f.at)) == Recent(earlier + [f], f.at)
  {
    var earlier := if user in failures then failures[user] else [];
    var c := Hit(if user in locks then locks[user] else Absent, f.at, f.window);
    assert user in locks ==> LockOk(locks, failures, user);
    OneMore(earlier, f);
    CounterIsRecent(earlier + [f], f.at);
    var locks', failures' := locks[user := c], failures[user := earlier + [f]];
    forall x | x in locks' ensures LockOk(locks', failures', x) {
      assert x != user ==> LockOk(locks, failures, x);
    }
  }

  lemma NoMoreFailures(locks: map<UserId, Counter>, failures: map<UserId, seq<Failure>>, user: UserId)
    requires LocksOk(locks, failures)
    ensures LocksOk(locks - {user}, failures - {user})
  {
    forall x | x in locks - {user} ensures LockOk(locks - {user}, failures - {user}, x) {
      assert LockOk(locks, failures, x);
    }
  }

  lemma LockIsRecent(locks: map<UserId, Counter>, failures: map<UserId, seq<Failure>>, user: UserId, now: int)
    requires LocksOk(locks, failures)
    ensures Value(if user in locks then Seen(locks[user], now) else Absent)
         == Recent(if user in failures then failures[user] else [], now)
  {
    assert user in locks ==> LockOk(locks, failures, user);
    CounterIsRecent(if user in failures then failures[user] else [], now);
  }

  class CounterStore {
    const authMax: nat
    const authWindow: int
    var now: int
    var locks: map<UserId, Counter>
    var limits: map<string, Counter>
    /** The instants of the requests seen so far, key by key. */
    ghost var hits: map<string, seq<int>>
    /** The answers given to them. */
    ghost var answers: map<string, seq<bool>>
    /** The failed logins of each account since its counter was last cleared. */
    ghost var failures: map<UserId, seq<Failure>>

    ghost predicate Valid()
      reads this
    {
      && authMax >= 1 && authWindow >= 1
      && LimitsOk(limits, hits, answers, authWindow, authMax, now)
      && LocksOk(locks, failures)
    }

    ghost function Failures(user: UserId): seq<Failure>
      reads this
    {
      if user in failures then failures[user] else []
    }

    ghost function Hits(key: string): seq<int>
      reads this
    {
      if key in hits then hits[key] else []
    }

    ghost function Answers(key: string): seq<bool>
      reads this
    {
      if key in answers then answers[key] else []
    }

    /** Fewer than `authMax` requests of `key` came before in the burst that a request made now belongs to. */
    ghost predicate Allows(key: string)
      reads this
    {
      |Hits(key)| - RateLimit.BurstStart(Hits(key) + [now], authWindow, |Hits(key)|) < authMax
    }

    constructor (authMax: nat, authWindow: int, now: int)
      requires authMax >= 1 && authWindow >= 1
      ensures Valid() && this.authMax == authMax && this.authWindow == authWindow && this.now == now
      ensures locks == map[] && limits == map[] && hits == map[] && answers == map[] && failures == map[]
    {
      this.authMax, this.authWindow, this.now := authMax, authWindow, now;
      locks, limits := map[], map[];
      hits, answers, failures := map[], map[], map[];
    }

    method Wait(t: int)
      requires Valid() && now <= t
      modifies this`now
      ensures Valid() && now == t
      ensures forall u :: Lock(u) == Seen(old(Lock(u)), t)
    {
      TimeKeepsLimits(limits, hits, answers, authWindow, authMax, now, t);
      now := t;
    }

    function Lock(user: UserId): Counter
      reads this
    {
      if user in locks then Seen(locks[user], now) else Absent
    }

    /** Locked: as many failures as `max` that still count, since the last success and in the current burst. */
    method IsLocked(user: UserId, max: int) returns (locked: bool)
      requires Valid()
      ensures locked <==> Recent(Failures(user), now) >= max
      ensures Value(Lock(user)) == Recent(Failures(user), now)
    {
      LockIsRecent(locks, failures, user, now);
      var n := Value(Lock(user));
      locked := n >= max;
    }

    /** INCR and EXPIRE together: no counter is ever left without an expiry. */
    method RecordLoginFailure(user: UserId, window: int) returns (count: nat)
      requires Valid() && window >= 1
      modifies this`locks, this`failures
      ensures Valid() && Lock(user) == Counting(Value(old(Lock(user))) + 1, now + window)
      ensures failures == old(failures)[user := old(Failures(user)) + [Failure(now, window)]]
      ensures count == Value(Lock(user)) == Recent(Failures(user), now)
      ensures forall u | u != user :: Lock(u) == old(Lock(u))
    {
      OneMoreFailure(locks, failures, user, Failure(now, window));
      var c := Hit(if user in locks then locks[user] else Absent, now, window);
      locks := locks[user := c];
      failures := failures[user := Failures(user) + [Failure(now, window)]];
      count := c.n;
    }

    method ClearLoginFailures(user: UserId)
      requires Valid()
      modifies this`locks, this`failures
      ensures Valid() && Lock(user) == Absent && failures == old(failures) - {user}
      ensures forall u | u != user :: Lock(u) == old(Lock(u))
    {
      NoMoreFailures(locks, failures, user);
      locks := locks - {user};
      failures := failures - {user};
    }

    /** The answer goes by the whole history of the key, and goes on record with the hit. */
    method AuthRateLimitOk(key: string) returns (ok: bool)
      requires Valid()
      modifies this`limits, this`hits, this`answers
      ensures Valid() && hits == old(hits)[key := old(Hits(key)) + [now]]
      ensures answers == old(answers)[key := old(Answers(key)) + [ok]]
      ensures ok <==> RateLimit.Accepted(old(Hits(key)) + [now], authWindow, authMax, |old(Hits(key))|)
      ensures ok <==> old(Allows(key))
    {
      OneMoreHit(limits, hits, answers, authWindow, authMax, now, key);
      var c := Hit(if key in limits then limits[key] else Absent, now, authWindow);
      ok := c.n <= authMax;
      limits := limits[key := c];
      answers := answers[key := Answers(key) + [ok]];
      hits := hits[key := Hits(key) + [now]];
    }
  }

  /** `Allows` foretells the answer to a request made now. */
  lemma AllowsForetells(s: CounterStore, key: string)
    requires s.Valid()
    ensures s.Allows(key) <==> RateLimit.Accepted(s.Hits(key) + [s.now], s.authWindow, s.authMax, |s.Hits(key)|)
  {
    RateLimit.AcceptedExactly(s.Hits(key) + [s.now], s.authWindow, s.authMax, |s.Hits(key)|);
  }

  /** The requests of `key` that were let through in the window that begins at `from`. */
  ghost function LetThrough(s: CounterStore, key: string, from: int): set<nat>
    reads s
  {
    set i: nat | i < |s.Hits(key)| && i < |s.Answers(key)| && s.Answers(key)[i]
                 && from <= s.Hits(key)[i] < from + s.authWindow
  }

  /** Whatever calls were made, any interval one window long holds at most `authMax` requests of a key let through. */
  lemma AtMostMaxLetThrough(s: CounterStore, key: string, from: int)
    requires s.Valid()
    ensures |s.Answers(key)| == |s.Hits(key)| && |LetThrough(s, key, from)| <= s.authMax
  {
    assert key in s.limits ==> KeyOk(s.limits, s.hits, s.answers, s.authWindow, s.authMax, s.now, key);
    assert LetThrough(s, key, from) == RateLimit.AcceptedIn(s.Hits(key), s.authWindow, s.authMax, from);
    RateLimit.AtMostMaxPerWindow(s.Hits(key), s.authWindow, s.authMax, from);
  }

  /** A refusal is followed by refusals only, until a gap of a whole window, after which the request is let through. */
  lemma RefusalLastsUntilGap(s: CounterStore, key: string, i: nat, j: nat)
    requires s.Valid() && i < j < |s.Hits(key)| && |s.Answers(key)| == |s.Hits(key)| && !s.Answers(key)[i]
    ensures (forall k | i < k <= j :: s.Hits(key)[k] - s.Hits(key)[k - 1] < s.authWindow) ==> !s.Answers(key)[j]
    ensures s.Hits(key)[j] - s.Hits(key)[j - 1] >= s.authWindow ==> s.Answers(key)[j]
  {
    assert KeyOk(s.limits, s.hits, s.answers, s.authWindow, s.authMax, s.now, key);
    RateLimit.RefusedUntilGap(s.Hits(key), s.authWindow, s.authMax, i, j);
  }
}
