/**
 The login lockout of one account (backend/src/handlers/auth.rs, `login`): a check
 of the counter, a password verification, then a record or a reset, by any number
 of concurrent logins. The check and the record are separate Redis commands.
 */
module Lockout {
  import opened Collections
  import opened Counters

  datatype Config = Config(max: int, window: int)

  predicate Sane(c: Config) {
    c.window >= 1
  }

  datatype Stage = Arrived | PastCheck

  /** `recorded` counts the failures recorded since the counter was last zero, `lastFailure` is when. */
  datatype State = State(now: int, key: Counter, logins: map<nat, Stage>, recorded: nat, lastFailure: int)

  datatype Action =
    | Tick(t: int)
    | Arrive(tid: nat)
    | Check(tid: nat)        // is_locked: refuses with 429, or lets the login verify its password
    | WrongPassword(tid: nat) // record_login_failure
    | RightPassword(tid: nat) // clear_login_failures
    | Die(tid: nat)

  function Start(now: int): State {
    State(now, Absent, map[], 0, now)
  }

  predicate Locked(c: Config, s: State) {
    Value(s.key) >= c.max
  }

  predicate Enabled(s: State, a: Action) {
    match a
    case Tick(t) => t > s.now
    case Arrive(tid) => tid !in s.logins
    case Check(tid) => tid in s.logins && s.logins[tid].Arrived?
    case WrongPassword(tid) => tid in s.logins && s.logins[tid].PastCheck?
    case RightPassword(tid) => tid in s.logins && s.logins[tid].PastCheck?
    case Die(tid) => tid in s.logins
  }

  function Do(c: Config, s: State, a: Action): State
    requires Enabled(s, a)
  {
    match a
    case Tick(t) => s.(now := t, key := Seen(s.key, t), recorded := if Seen(s.key, t).Absent? then 0 else s.recorded)
    case Arrive(tid) => s.(logins := s.logins[tid := Arrived])
    case Check(tid) => s.(logins := if Locked(c, s) then s.logins - {tid} else s.logins[tid := PastCheck])
    case WrongPassword(tid) =>
      State(s.now, Hit(s.key, s.now, c.window), s.logins - {tid}, s.recorded + 1, s.now)
    case RightPassword(tid) => s.(key := Absent, logins := s.logins - {tid}, recorded := 0)
    case Die(tid) => s.(logins := s.logins - {tid})
  }

  /** A run in which at most `k` logins of the account are in flight at any moment. */
  ghost predicate Run(c: Config, k: nat, s: State, acts: seq<Action>)
    decreases |acts|
  {
    && |s.logins| <= k
    && (acts != [] ==> Enabled(s, acts[0]) && Run(c, k, Do(c, s, acts[0]), acts[1..]))
  }

  ghost function After(c: Config, k: nat, s: State, acts: seq<Action>): State
    requires Run(c, k, s, acts)
    decreases |acts|
  {
    if acts == [] then s else After(c, k, Do(c, s, acts[0]), acts[1..])
  }

  ghost function PastCheckOf(s: State): set<nat> {
    set tid | tid in s.logins && s.logins[tid].PastCheck?
  }

  ghost predicate Inv(c: Config, k: nat, s: State) {
    && Value(s.key) == s.recorded
    && (s.key.Counting? ==> s.key.expiry == s.lastFailure + c.window && s.now < s.key.expiry && s.key.n >= 1)
    && s.lastFailure <= s.now
    && (if c.max <= 0 then s.recorded == 0 && PastCheckOf(s) == {}
        else s.recorded + |PastCheckOf(s)| <= c.max - 1 + k)
  }

  lemma PastCheckMoves(c: Config, s: State, a: Action)
    requires Enabled(s, a)
    ensures var p, p' := PastCheckOf(s), PastCheckOf(Do(c, s, a));
            match a
            case Tick(_) => p' == p
            case Arrive(_) => p' == p
            case Check(tid) => tid !in p && p' == if Locked(c, s) then p else p + {tid}
            case WrongPassword(tid) => tid in p && p' == p - {tid}
            case RightPassword(tid) => tid in p && p' == p - {tid}
            case Die(tid) => p' == p - {tid}
  {
  }

  lemma PastCheckFits(s: State, tid: nat)
    requires tid in s.logins && s.logins[tid].Arrived?
    ensures |PastCheckOf(s)| < |s.logins|
  {
    assert PastCheckOf(s) <= s.logins.Keys - {tid};
    SubsetSize(PastCheckOf(s), s.logins.Keys - {tid});
  }

  lemma Keeps(c: Config, k: nat, s: State, a: Action)
    requires Sane(c) && Inv(c, k, s) && |s.logins| <= k && Enabled(s, a)
    ensures Inv(c, k, Do(c, s, a))
  {
    PastCheckMoves(c, s, a);
    if a.Check? {
      PastCheckFits(s, a.tid);
    }
  }

  lemma {:induction false} RunKeeps(c: Config, k: nat, s: State, acts: seq<Action>)
    requires Sane(c) && Inv(c, k, s) && Run(c, k, s, acts)
    ensures Inv(c, k, After(c, k, s, acts))
    decreases |acts|
  {
    if acts != [] {
      Keeps(c, k, s, acts[0]);
      RunKeeps(c, k, Do(c, s, acts[0]), acts[1..]);
    }
  }

  /**
   With threshold `max` and at most `k` logins in flight, the failures recorded since the counter was last
   zero never exceed max - 1 + k; a threshold of zero or less lets no login through at all.
   */
  lemma FailuresBounded(c: Config, k: nat, now: int, acts: seq<Action>)
    requires Sane(c) && Run(c, k, Start(now), acts)
    ensures var s := After(c, k, Start(now), acts);
            && Value(s.key) == s.recorded
            && (if c.max <= 0 then s.recorded == 0 else s.recorded <= c.max - 1 + k)
  {
    assert PastCheckOf(Start(now)) == {};
    RunKeeps(c, k, Start(now), acts);
  }

  /**
   While the account is locked and no login is past its check, nothing but time moves the counter: refused
   attempts do not re-arm it, and the lock lasts until exactly one window after the last recorded failure.
   */
  lemma {:induction false} LockHolds(c: Config, k: nat, s: State, acts: seq<Action>)
    requires Sane(c) && c.max >= 1 && Inv(c, k, s) && Run(c, k, s, acts)
    requires Locked(c, s) && PastCheckOf(s) == {}
    ensures var t := After(c, k, s, acts);
            t.now < s.lastFailure + c.window ==>
              t.key == s.key && Locked(c, t) && PastCheckOf(t) == {} && t.lastFailure == s.lastFailure
    ensures After(c, k, s, acts).now >= s.now
    decreases |acts|
  {
    if acts != [] {
      var s1 := Do(c, s, acts[0]);
      Keeps(c, k, s, acts[0]);
      PastCheckMoves(c, s, acts[0]);
      if s1.now < s.lastFailure + c.window {
        LockHolds(c, k, s1, acts[1..]);
      } else {
        TimePasses(c, k, s1, acts[1..]);
      }
    }
  }

  /** The counter is not back to zero anywhere along the run. */
  ghost predicate NeverZero(c: Config, k: nat, s: State, acts: seq<Action>)
    requires Run(c, k, s, acts)
    decreases |acts|
  {
    s.key.Counting? && (acts != [] ==> NeverZero(c, k, Do(c, s, acts[0]), acts[1..]))
  }

  /**
   From a locked account, only the logins already past their check can record a failure, once each, until the
   counter is back to zero: the lock is re-armed at most that many times, and holds all along.
   */
  lemma {:induction false} LateFailures(c: Config, k: nat, s: State, acts: seq<Action>)
    requires Sane(c) && Inv(c, k, s) && Run(c, k, s, acts)
    requires Locked(c, s) && NeverZero(c, k, s, acts)
    ensures var t := After(c, k, s, acts);
            && Locked(c, t)
            && s.recorded <= t.recorded <= s.recorded + |PastCheckOf(s)| - |PastCheckOf(t)|
            && (t.recorded == s.recorded ==> t.key == s.key)
    decreases |acts|
  {
    if acts != [] {
      var s1 := Do(c, s, acts[0]);
      Keeps(c, k, s, acts[0]);
      PastCheckMoves(c, s, acts[0]);
      SubsetSize(PastCheckOf(s1), PastCheckOf(s));
      LateFailures(c, k, s1, acts[1..]);
    }
  }

  lemma {:induction false} TimePasses(c: Config, k: nat, s: State, acts: seq<Action>)
    requires Run(c, k, s, acts)
    ensures After(c, k, s, acts).now >= s.now
    decreases |acts|
  {
    if acts != [] {
      TimePasses(c, k, Do(c, s, acts[0]), acts[1..]);
    }
  }

  /** One window after the last recorded failure the counter is gone, and the next login is let through. */
  lemma LockEnds(c: Config, k: nat, now: int, acts: seq<Action>, t: int, tid: nat)
    requires Sane(c) && c.max >= 1 && Run(c, k, Start(now), acts)
    requires var s := After(c, k, Start(now), acts);
             t > s.now && t >= s.lastFailure + c.window && tid in s.logins && s.logins[tid].Arrived?
    ensures var s' := Do(c, After(c, k, Start(now), acts), Tick(t));
            s'.key == Absent && Do(c, s', Check(tid)).logins[tid] == PastCheck
  {
    assert PastCheckOf(Start(now)) == {};
    RunKeeps(c, k, Start(now), acts);
    var s := After(c, k, Start(now), acts);
    assert Inv(c, k, s);
    assert Seen(s.key, t) == Absent;
  }

  // --- The steps of one login ---

  /** A login goes on exactly when the account is not locked; either way the counter stays. */
  lemma CheckDecidesExactly(c: Config, s: State, tid: nat)
    requires Enabled(s, Check(tid))
    ensures var t := Do(c, s, Check(tid));
            && (tid in t.logins <==> Value(s.key) < c.max) && (tid in t.logins ==> t.logins[tid] == PastCheck)
            && t.key == s.key && t.recorded == s.recorded
  {
  }

  /** A right password clears the counter, and the account is open again. */
  lemma SuccessClears(c: Config, s: State, tid: nat)
    requires Enabled(s, RightPassword(tid))
    ensures var t := Do(c, s, RightPassword(tid));
            && Value(t.key) == 0 && t.recorded == 0 && tid !in t.logins
            && (c.max >= 1 ==> Value(t.key) < c.max)
  {
  }

  /** A wrong password counts once and re-arms the whole window. */
  lemma FailureCounts(c: Config, k: nat, s: State, tid: nat)
    requires Sane(c) && Inv(c, k, s) && Enabled(s, WrongPassword(tid))
    ensures var t := Do(c, s, WrongPassword(tid));
            && Value(t.key) == Value(s.key) + 1 && t.recorded == s.recorded + 1 && tid !in t.logins
            && t.lastFailure == s.now
            && Seen(t.key, s.now + c.window - 1) == t.key && Seen(t.key, s.now + c.window) == Absent
  {
  }

  // --- The bound is reached ---

  lemma Prepend(c: Config, k: nat, s: State, a: Action, rest: seq<Action>) returns (acts: seq<Action>)
    requires |s.logins| <= k && Enabled(s, a) && Run(c, k, Do(c, s, a), rest)
    ensures Run(c, k, s, acts) && After(c, k, s, acts) == After(c, k, Do(c, s, a), rest)
  {
    acts := [a] + rest;
    assert acts[0] == a && acts[1..] == rest;
  }

  /** From a counter at `n`, `m` logins one after the other, each failing while the account is not locked. */
  lemma {:induction false} FailInTurn(c: Config, k: nat, s: State, m: nat) returns (acts: seq<Action>)
    requires Sane(c) && k >= 1 && s.logins == map[] && Inv(c, k, s) && s.recorded + m <= c.max
    ensures Run(c, k, s, acts)
    ensures var t := After(c, k, s, acts);
            t.logins == map[] && t.recorded == s.recorded + m && t.now == s.now && Inv(c, k, t)
    decreases m
  {
    if m == 0 {
      acts := [];
    } else {
      var s1 := Do(c, s, Arrive(0));
      var s2 := Do(c, s1, Check(0));
      var s3 := Do(c, s2, WrongPassword(0));
      Keeps(c, k, s, Arrive(0));
      Keeps(c, k, s1, Check(0));
      Keeps(c, k, s2, WrongPassword(0));
      assert s3.logins == map[];
      var rest := FailInTurn(c, k, s3, m - 1);
      var a3 := Prepend(c, k, s2, WrongPassword(0), rest);
      var a2 := Prepend(c, k, s1, Check(0), a3);
      acts := Prepend(c, k, s, Arrive(0), a2);
    }
  }

  lemma OneMoreCheck(c: Config, s: State, tid: nat) returns (s1: State, s2: State)
    requires !Locked(c, s) && tid !in s.logins && PastCheckOf(s) == s.logins.Keys
    ensures Enabled(s, Arrive(tid)) && s1 == Do(c, s, Arrive(tid)) && |s1.logins| == |s.logins| + 1
    ensures Enabled(s1, Check(tid)) && s2 == Do(c, s1, Check(tid)) && s2 == s.(logins := s.logins[tid := PastCheck])
    ensures PastCheckOf(s2) == s2.logins.Keys == s.logins.Keys + {tid} && |s2.logins| == |s.logins| + 1
  {
    s1 := Do(c, s, Arrive(tid));
    s2 := Do(c, s1, Check(tid));
    assert s1.logins.Keys == s.logins.Keys + {tid} && |s1.logins.Keys| == |s1.logins| && |s.logins.Keys| == |s.logins|;
    assert s2.logins == s.logins[tid := PastCheck];
  }

  /** `m` more logins get past the check of an account that is not locked yet. */
  lemma {:induction false} CheckTogether(c: Config, k: nat, s: State, m: nat) returns (acts: seq<Action>)
    requires !Locked(c, s) && |s.logins| + m <= k && PastCheckOf(s) == s.logins.Keys
    requires forall tid | tid in s.logins :: tid < |s.logins|
    ensures Run(c, k, s, acts)
    ensures var t := After(c, k, s, acts);
            && |t.logins| == |s.logins| + m && PastCheckOf(t) == t.logins.Keys
            && t == s.(logins := t.logins)
    decreases m
  {
    if m == 0 {
      acts := [];
    } else {
      var tid := |s.logins|;
      var s1, s2 := OneMoreCheck(c, s, tid);
      var rest := CheckTogether(c, k, s2, m - 1);
      var a2 := Prepend(c, k, s1, Check(tid), rest);
      acts := Prepend(c, k, s, Arrive(tid), a2);
    }
  }

  /** Every login past the check records its failure. */
  lemma {:induction false} FailTogether(c: Config, k: nat, s: State) returns (acts: seq<Action>)
    requires Sane(c) && |s.logins| <= k && PastCheckOf(s) == s.logins.Keys
    ensures Run(c, k, s, acts)
    ensures After(c, k, s, acts).recorded == s.recorded + |s.logins|
    decreases |s.logins|
  {
    if s.logins == map[] {
      acts := [];
    } else {
      assert s.logins.Keys != {};
      var tid :| tid in s.logins.Keys;
      assert tid in PastCheckOf(s);
      var s1 := Do(c, s, WrongPassword(tid));
      assert s1.logins.Keys == s.logins.Keys - {tid} && |s1.logins.Keys| == |s1.logins|;
      var rest := FailTogether(c, k, s1);
      acts := Prepend(c, k, s, WrongPassword(tid), rest);
    }
  }

  lemma {:induction false} RunConcat(c: Config, k: nat, s: State, a: seq<Action>, b: seq<Action>)
    requires Run(c, k, s, a) && Run(c, k, After(c, k, s, a), b)
    ensures Run(c, k, s, a + b) && After(c, k, s, a + b) == After(c, k, After(c, k, s, a), b)
    decreases |a|
  {
    if a == [] {
      assert a + b == b;
    } else {
      RunConcat(c, k, Do(c, s, a[0]), a[1..], b);
      ConcatTail(a, b);
    }
  }

  /** The bound is exact: some run with at most `k` logins in flight records max - 1 + k failures. */
  lemma BoundIsReached(c: Config, k: nat)
    requires Sane(c) && c.max >= 1 && k >= 1
    ensures exists acts :: Run(c, k, Start(0), acts) && After(c, k, Start(0), acts).recorded == c.max - 1 + k
  {
    var s0 := Start(0);
    assert PastCheckOf(s0) == {};
    var a1 := FailInTurn(c, k, s0, c.max - 1);
    var s1 := After(c, k, s0, a1);
    assert PastCheckOf(s1) == s1.logins.Keys;
    var a2 := CheckTogether(c, k, s1, k);
    var s2 := After(c, k, s1, a2);
    RunConcat(c, k, s0, a1, a2);
    AfterFits(c, k, s1, a2);
    var a3 := FailTogether(c, k, s2);
    RunConcat(c, k, s0, a1 + a2, a3);
  }

  lemma {:induction false} AfterFits(c: Config, k: nat, s: State, acts: seq<Action>)
    requires Run(c, k, s, acts)
    ensures |After(c, k, s, acts).logins| <= k
    decreases |acts|
  {
    if acts != [] {
      AfterFits(c, k, Do(c, s, acts[0]), acts[1..]);
    }
  }
}
