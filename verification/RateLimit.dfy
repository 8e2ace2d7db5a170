/**
 The auth rate limiter over whole runs. A run is the list of instants at which one
 key was hit, in order; `auth_rate_limit_ok` is a single MULTI block, so that list
 is all that an interleaving of callers leaves of them.
 */
module RateLimit {
  import opened Counters

  ghost predicate Ordered(times: seq<int>) {
    forall i, j | 0 <= i < j < |times| :: times[i] <= times[j]
  }

  /** The counter after all the hits. */
  ghost function After(times: seq<int>, window: int): Counter {
    if times == [] then Absent
    else Hit(After(times[..|times| - 1], window), times[|times| - 1], window)
  }

  /** The answer to hit number `i`. */
  ghost predicate Accepted(times: seq<int>, window: int, max: nat, i: nat)
    requires i < |times|
  {
    Value(After(times[..i + 1], window)) <= max
  }

  /** The first hit of the burst of `i`: no two successive hits of a burst are `window` apart. */
  ghost function BurstStart(times: seq<int>, window: int, i: nat): (b: nat)
    requires i < |times|
    ensures b <= i
  {
    if i == 0 || times[i] - times[i - 1] >= window then i else BurstStart(times, window, i - 1)
  }

  lemma {:induction false} CountIsBurstLength(times: seq<int>, window: int, i: nat)
    requires i < |times|
    ensures After(times[..i + 1], window) == Counting(i - BurstStart(times, window, i) + 1, times[i] + window)
  {
    assert times[..i + 1][..i] == times[..i];
    if i > 0 {
      CountIsBurstLength(times, window, i - 1);
    }
  }

  /** A request is accepted exactly when fewer than `max` requests of its burst came before it. */
  lemma AcceptedExactly(times: seq<int>, window: int, max: nat, i: nat)
    requires i < |times|
    ensures Accepted(times, window, max, i) <==> i - BurstStart(times, window, i) < max
  {
    CountIsBurstLength(times, window, i);
  }

  /** A burst begins after the last pause of a whole window, or with the first hit. */
  lemma {:induction false} BurstStartIs(times: seq<int>, window: int, i: nat, b: nat)
    requires b <= i < |times| && (b == 0 || times[b] - times[b - 1] >= window)
    requires forall k | b < k <= i :: times[k] - times[k - 1] < window
    ensures BurstStart(times, window, i) == b
    decreases i
  {
    if b < i {
      BurstStartIs(times, window, i - 1, b);
    }
  }

  /** The first `max` requests after such a pause are accepted, and the ones after them are not. */
  lemma FirstOfBurstAccepted(times: seq<int>, window: int, max: nat, i: nat, b: nat)
    requires b <= i < |times| && (b == 0 || times[b] - times[b - 1] >= window)
    requires forall k | b < k <= i :: times[k] - times[k - 1] < window
    ensures Accepted(times, window, max, i) <==> i < b + max
  {
    BurstStartIs(times, window, i, b);
    AcceptedExactly(times, window, max, i);
  }

  ghost predicate CountsHits(c: Counter, times: seq<int>, window: int, now: int) {
    && c == After(times, window)
    && Ordered(times)
    && forall i | 0 <= i < |times| :: times[i] <= now
  }

  /** One more hit, made now. */
  lemma NextHit(earlier: seq<int>, c: Counter, times: seq<int>, window: int, max: nat, now: int)
    requires CountsHits(c, earlier, window, now) && times == earlier + [now]
    ensures CountsHits(Hit(c, now, window), times, window, now)
    ensures Value(Hit(c, now, window)) <= max <==> |earlier| - BurstStart(times, window, |earlier|) < max
    ensures Value(Hit(c, now, window)) <= max <==> Accepted(times, window, max, |earlier|)
  {
    assert times[..|earlier|] == earlier && times[..|earlier| + 1] == times;
    AcceptedExactly(times, window, max, |earlier|);
  }

  /** The answers given to the hits, one by one. */
  ghost predicate Answers(answers: seq<bool>, times: seq<int>, window: int, max: nat) {
    |answers| == |times| && forall i | 0 <= i < |times| :: answers[i] <==> Accepted(times, window, max, i)
  }

  lemma NextAnswer(answers: seq<bool>, earlier: seq<int>, window: int, max: nat, now: int, ok: bool)
    requires Answers(answers, earlier, window, max)
    requires ok <==> Accepted(earlier + [now], window, max, |earlier|)
    ensures Answers(answers + [ok], earlier + [now], window, max)
  {
    forall i | 0 <= i < |earlier|
      ensures Accepted(earlier + [now], window, max, i) <==> Accepted(earlier, window, max, i)
    {
      assert (earlier + [now])[..i + 1] == earlier[..i + 1];
    }
  }

  lemma {:induction false} SameBurst(times: seq<int>, window: int, i: nat, j: nat)
    requires i <= j < |times|
    requires forall k | i < k <= j :: times[k] - times[k - 1] < window
    ensures BurstStart(times, window, j) == BurstStart(times, window, i)
    decreases j
  {
    if i < j {
      SameBurst(times, window, i, j - 1);
    }
  }

  /**
   Once a request is refused, so are all the next ones until a gap of at least `window`, and then the next is
   accepted.
   */
  lemma RefusedUntilGap(times: seq<int>, window: int, max: nat, i: nat, j: nat)
    requires max >= 1 && i < j < |times| && !Accepted(times, window, max, i)
    ensures (forall k | i < k <= j :: times[k] - times[k - 1] < window) ==> !Accepted(times, window, max, j)
    ensures times[j] - times[j - 1] >= window ==> Accepted(times, window, max, j)
  {
    AcceptedExactly(times, window, max, i);
    AcceptedExactly(times, window, max, j);
    if forall k | i < k <= j :: times[k] - times[k - 1] < window {
      SameBurst(times, window, i, j);
    }
  }

  ghost function AcceptedIn(times: seq<int>, window: int, max: nat, from: int): set<nat> {
    set i: nat | i < |times| && from <= times[i] < from + window && Accepted(times, window, max, i)
  }

  lemma RangeSize(s: set<nat>, lo: nat, hi: nat)
    requires forall x | x in s :: lo <= x < hi
    ensures |s| <= if lo <= hi then hi - lo else 0
    decreases hi
  {
    if s != {} {
      var x :| x in s;
      assert hi >= 1;
      RangeSize(s - {hi - 1}, lo, hi - 1);
      assert |s| <= |s - {hi - 1}| + 1;
    }
  }

  /** In any half-open interval one window long, at most `max` requests are accepted. */
  lemma AtMostMaxPerWindow(times: seq<int>, window: int, max: nat, from: int)
    requires Ordered(times) && window >= 1
    ensures |AcceptedIn(times, window, max, from)| <= max
  {
    var acc := AcceptedIn(times, window, max, from);
    if acc != {} {
      var a := Least(acc);
      forall i | i in acc ensures a <= i < BurstStart(times, window, a) + max {
        forall k | a < k <= i ensures times[k] - times[k - 1] < window {
          assert times[a] <= times[k - 1] <= times[k] <= times[i];
        }
        SameBurst(times, window, a, i);
        AcceptedExactly(times, window, max, i);
      }
      RangeSize(acc, a, BurstStart(times, window, a) + max);
    }
  }

  lemma Least(s: set<nat>) returns (m: nat)
    requires s != {}
    ensures m in s && forall x | x in s :: m <= x
  {
    var x :| x in s;
    if s == {x} {
      m := x;
    } else {
      var rest := Least(s - {x});
      m := if x <= rest then x else rest;
      forall y | y in s ensures m <= y { assert y == x || y in s - {x}; }
    }
  }

  // --- Several keys ---

  datatype Request = Request(key: string, at: int)

  /** All keys after a run of requests to any of them. */
  ghost function AfterAll(run: seq<Request>, window: int): map<string, Counter> {
    if run == [] then map[]
    else
      var m := AfterAll(run[..|run| - 1], window);
      var r := run[|run| - 1];
      m[r.key := Hit(if r.key in m then m[r.key] else Absent, r.at, window)]
  }

  ghost function TimesOf(run: seq<Request>, key: string): seq<int> {
    if run == [] then []
    else
      var r := run[|run| - 1];
      TimesOf(run[..|run| - 1], key) + if r.key == key then [r.at] else []
  }

  /** A key only depends on its own requests, so the bounds above hold for every key of any run. */
  lemma {:induction false} KeysAreIndependent(run: seq<Request>, window: int, key: string)
    ensures var m := AfterAll(run, window);
            (if key in m then m[key] else Absent) == After(TimesOf(run, key), window)
  {
    if run != [] {
      var rest, r := run[..|run| - 1], run[|run| - 1];
      KeysAreIndependent(rest, window, key);
      var ts := TimesOf(rest, key);
      assert (ts + [r.at])[..|ts|] == ts && ts + [] == ts;
    }
  }
}
