/** The failed logins of one account and the counter they leave, each with the window it was recorded with. */
module LoginFailures {
  import opened Counters

  datatype Failure = Failure(at: int, window: int)

  /** The counter after all the failures. */
  ghost function After(failures: seq<Failure>): Counter {
    if failures == [] then Absent
    else
      var last := failures[|failures| - 1];
      Hit(After(failures[..|failures| - 1]), last.at, last.window)
  }

  /** The first failure of the burst of `i`: each later one came before the window of the one before it was over. */
  ghost function BurstStart(failures: seq<Failure>, i: nat): (b: nat)
    requires i < |failures|
    ensures b <= i
  {
    if i == 0 || failures[i].at >= failures[i - 1].at + failures[i - 1].window then i else BurstStart(failures, i - 1)
  }

  /** The failures that still count at `now`: those of the last burst, until its last window is over. */
  ghost function Recent(failures: seq<Failure>, now: int): nat {
    var n := |failures|;
    if n == 0 || failures[n - 1].at + failures[n - 1].window <= now then 0 else n - BurstStart(failures, n - 1)
  }

  lemma {:induction false} CounterIsBurst(failures: seq<Failure>, i: nat)
    requires i < |failures|
    ensures After(failures[..i + 1])
         == Counting(i - BurstStart(failures, i) + 1, failures[i].at + failures[i].window)
  {
    assert failures[..i + 1][..i] == failures[..i];
    if i > 0 {
      CounterIsBurst(failures, i - 1);
    }
  }

  /** What Redis answers for the counter is the number of failures that still count. */
  lemma CounterIsRecent(failures: seq<Failure>, now: int)
    ensures Value(Seen(After(failures), now)) == Recent(failures, now)
  {
    if failures != [] {
      assert failures[..|failures|] == failures;
      CounterIsBurst(failures, |failures| - 1);
    }
  }

  lemma {:induction false} BurstStartIs(failures: seq<Failure>, i: nat, b: nat)
    requires b <= i < |failures| && (b == 0 || failures[b].at >= failures[b - 1].at + failures[b - 1].window)
    requires forall k | b < k <= i :: failures[k].at < failures[k - 1].at + failures[k - 1].window
    ensures BurstStart(failures, i) == b
    decreases i
  {
    if b < i {
      BurstStartIs(failures, i - 1, b);
    }
  }

  /**
   With the last pause of a whole window before failure `b`, the failures from `b` on count, all of them, until a
   window after the last one; from then on none does.
   */
  lemma RecentExactly(failures: seq<Failure>, b: nat, now: int)
    requires b < |failures| && (b == 0 || failures[b].at >= failures[b - 1].at + failures[b - 1].window)
    requires forall k | b < k < |failures| :: failures[k].at < failures[k - 1].at + failures[k - 1].window
    ensures var last := failures[|failures| - 1];
            Recent(failures, now) == if now < last.at + last.window then |failures| - b else 0
    ensures Recent([], now) == 0
  {
    BurstStartIs(failures, |failures| - 1, b);
  }

  lemma OneMore(failures: seq<Failure>, f: Failure)
    ensures After(failures + [f]) == Hit(After(failures), f.at, f.window)
  {
    assert (failures + [f])[..|failures|] == failures;
  }
}
