/**
 Request metrics (backend/src/monitoring/metrics.rs): counters and cumulative
 histograms of latency, updated in place, against the list of all observations.
 Latencies are reals.
 */
module Metrics {
  import opened Collections

  const BUCKETS: seq<real> := [0.005, 0.01, 0.025, 0.05, 0.1, 0.25, 0.5, 1.0, 2.5, 5.0, 10.0]
  const OTHER := "other"
  const METHODS: seq<string> := ["GET", "POST", "PATCH", "PUT", "DELETE", "HEAD", "OPTIONS", "other"]
  const ROUTES: seq<string> := [
    "/health", "/health/ready", "/metrics", "/api/v1/auth/register", "/api/v1/auth/login", "/api/v1/auth/refresh",
    "/api/v1/auth/logout", "/api/v1/users/me", "/api/v1/admin/users", "other"]

  type Status = s: int | 0 <= s < 65536

  datatype HistKey = HistKey(verb: string, route: string)
  datatype CounterKey = CounterKey(verb: string, route: string, status: Status, outcome: string)
  datatype Hist = Hist(buckets: seq<nat>, sum: real, count: nat)

  /** One handled request, as the middleware reports it. */
  datatype Observation = Observation(verb: string, path: string, status: Status, latency: real)

  function NormalizeMethod(verb: string): string {
    if verb in METHODS then verb else OTHER
  }

  function NormalizeRoute(path: string): string {
    if path in ROUTES then path else OTHER
  }

  function OutcomeFor(status: Status): string {
    if 500 <= status <= 599 then "server_error" else if 400 <= status <= 499 then "client_error" else "success"
  }

  function HistKeyOf(o: Observation): HistKey {
    HistKey(NormalizeMethod(o.verb), NormalizeRoute(o.path))
  }

  function CounterKeyOf(o: Observation): CounterKey {
    CounterKey(NormalizeMethod(o.verb), NormalizeRoute(o.path), o.status, OutcomeFor(o.status))
  }

  // --- What the observations add up to ---

  ghost function CountOf(seen: seq<Observation>, k: CounterKey): nat {
    if seen == [] then 0
    else CountOf(seen[..|seen| - 1], k) + if CounterKeyOf(seen[|seen| - 1]) == k then 1 else 0
  }

  ghost function TotalOf(seen: seq<Observation>, k: HistKey): nat {
    if seen == [] then 0
    else TotalOf(seen[..|seen| - 1], k) + if HistKeyOf(seen[|seen| - 1]) == k then 1 else 0
  }

  /** The observations of `k` that took at most `bound`. */
  ghost function WithinOf(seen: seq<Observation>, k: HistKey, bound: real): nat {
    if seen == [] then 0
    else
      var o := seen[|seen| - 1];
      WithinOf(seen[..|seen| - 1], k, bound) + if HistKeyOf(o) == k && o.latency <= bound then 1 else 0
  }

  ghost function SumOf(seen: seq<Observation>, k: HistKey): real {
    if seen == [] then 0.0
    else SumOf(seen[..|seen| - 1], k) + if HistKeyOf(seen[|seen| - 1]) == k then seen[|seen| - 1].latency else 0.0
  }

  ghost function HistOf(seen: seq<Observation>, k: HistKey): Hist {
    Hist(seq(|BUCKETS|, i requires 0 <= i < |BUCKETS| => WithinOf(seen, k, BUCKETS[i])), SumOf(seen, k),
         TotalOf(seen, k))
  }

  lemma {:induction false} WithinIsMonotone(seen: seq<Observation>, k: HistKey, a: real, b: real)
    requires a <= b
    ensures WithinOf(seen, k, a) <= WithinOf(seen, k, b) <= TotalOf(seen, k)
  {
    if seen != [] {
      WithinIsMonotone(seen[..|seen| - 1], k, a, b);
    }
  }

  /** Buckets never decrease from one bound to the next, and none exceeds the count. */
  lemma BucketsAreCumulative(seen: seq<Observation>, k: HistKey, i: nat, j: nat)
    requires i <= j < |BUCKETS|
    ensures HistOf(seen, k).buckets[i] <= HistOf(seen, k).buckets[j] <= HistOf(seen, k).count
  {
    BoundsIncrease(i, j);
    WithinIsMonotone(seen, k, BUCKETS[i], BUCKETS[j]);
  }

  lemma BoundsIncrease(i: nat, j: nat)
    requires i <= j < |BUCKETS|
    ensures BUCKETS[i] <= BUCKETS[j]
  {
  }

  /** The counters of one (method, route) for the statuses below `n`, added up. */
  ghost function SumStatuses(seen: seq<Observation>, k: HistKey, n: int): nat
    requires 0 <= n <= 65536
  {
    if n == 0 then 0
    else SumStatuses(seen, k, n - 1) + CountOf(seen, CounterKey(k.verb, k.route, n - 1, OutcomeFor(n - 1)))
  }

  lemma {:induction false} SumStatusesStep(seen: seq<Observation>, o: Observation, k: HistKey, n: int)
    requires 0 <= n <= 65536
    ensures SumStatuses(seen + [o], k, n)
         == SumStatuses(seen, k, n) + if HistKeyOf(o) == k && o.status < n then 1 else 0
    decreases n
  {
    if n > 0 {
      SumStatusesStep(seen, o, k, n - 1);
      assert (seen + [o])[..|seen|] == seen;
    }
  }

  lemma {:induction false} SumOfNothing(k: HistKey, n: int)
    requires 0 <= n <= 65536
    ensures SumStatuses([], k, n) == 0
    decreases n
  {
    if n > 0 {
      SumOfNothing(k, n - 1);
    }
  }

  /** The counters of a (method, route), over all statuses, add up to its histogram count. */
  lemma {:induction false} CountersAgreeWithHistogram(seen: seq<Observation>, k: HistKey)
    ensures SumStatuses(seen, k, 65536) == HistOf(seen, k).count
  {
    if seen == [] {
      SumOfNothing(k, 65536);
    } else {
      var rest, o := seen[..|seen| - 1], seen[|seen| - 1];
      CountersAgreeWithHistogram(rest, k);
      SumStatusesStep(rest, o, k, 65536);
      assert rest + [o] == seen;
    }
  }

  /** Two counters never share method, route and status: the outcome label follows from the status. */
  lemma {:induction false} CounterKeyIsDetermined(seen: seq<Observation>, a: CounterKey, b: CounterKey)
    requires CountOf(seen, a) > 0 && CountOf(seen, b) > 0
    requires a.verb == b.verb && a.route == b.route && a.status == b.status
    ensures a == b
  {
    OutcomeFollows(seen, a);
    OutcomeFollows(seen, b);
  }

  lemma {:induction false} OutcomeFollows(seen: seq<Observation>, k: CounterKey)
    requires CountOf(seen, k) > 0
    ensures k.outcome == OutcomeFor(k.status)
  {
    if CounterKeyOf(seen[|seen| - 1]) != k {
      OutcomeFollows(seen[..|seen| - 1], k);
    }
  }

  // --- A closed set of labels ---

  ghost function Pairs(a: set<string>, b: set<string>): set<HistKey> {
    set x, y | x in a && y in b :: HistKey(x, y)
  }

  lemma {:induction false} PairsWithOne(x: string, b: set<string>)
    ensures |Pairs({x}, b)| == |b|
    decreases |b|
  {
    if b == {} {
      assert Pairs({x}, b) == {};
    } else {
      var y :| y in b;
      PairsWithOne(x, b - {y});
      assert Pairs({x}, b) == Pairs({x}, b - {y}) + {HistKey(x, y)};
    }
  }

  lemma {:induction false} PairsCount(a: set<string>, b: set<string>)
    ensures |Pairs(a, b)| == |a| * |b|
    decreases |a|
  {
    if a == {} {
      assert Pairs(a, b) == {};
    } else {
      var x :| x in a;
      PairsCount(a - {x}, b);
      PairsWithOne(x, b);
      assert Pairs(a, b) == Pairs(a - {x}, b) + Pairs({x}, b);
      assert (|a| - 1) * |b| + |b| == |a| * |b|;
    }
  }

  ghost function SetOf(names: seq<string>): set<string> {
    set x | x in names
  }

  lemma {:induction false} SetOfSize(names: seq<string>)
    ensures |SetOf(names)| <= |names|
  {
    if names == [] {
      assert SetOf(names) == {};
    } else {
      SetOfSize(names[1..]);
      assert SetOf(names) == {names[0]} + SetOf(names[1..]);
    }
  }

  lemma KeysInPairs(o: Observation)
    ensures HistKeyOf(o) in Pairs(SetOf(METHODS), SetOf(ROUTES))
  {
    assert METHODS[7] == OTHER && ROUTES[9] == OTHER;
  }

  lemma ProductBound(a: nat, b: nat)
    requires a <= 8 && b <= 10
    ensures a * b <= 80
  {
    assert a * b <= 8 * b;
  }

  /** The outcome of a request is the class of its status. */
  lemma OutcomeIsTheClass(status: Status)
    ensures OutcomeFor(status) == "server_error" <==> status / 100 == 5
    ensures OutcomeFor(status) == "client_error" <==> status / 100 == 4
    ensures OutcomeFor(status) == "success" <==> status / 100 != 4 && status / 100 != 5
  {
  }

  /** The tag under which a name from the closed list `known`, or outside it, is counted. */
  ghost predicate Under(name: string, tag: string, known: seq<string>) {
    if tag == OTHER then name !in known || name == OTHER else name == tag
  }

  /** The observations whose own method and path belong under the labels of `k`. */
  ghost function RawCount(seen: seq<Observation>, k: HistKey): nat {
    if seen == [] then 0
    else
      var o := seen[|seen| - 1];
      RawCount(seen[..|seen| - 1], k)
      + if Under(o.verb, k.verb, METHODS) && Under(o.path, k.route, ROUTES) then 1 else 0
  }

  lemma LabelIsUnder(o: Observation, k: HistKey)
    requires k.verb in METHODS && k.route in ROUTES
    ensures HistKeyOf(o) == k <==> Under(o.verb, k.verb, METHODS) && Under(o.path, k.route, ROUTES)
  {
  }

  /**
   The histogram of a known label counts the requests of that very method and path, that of `other` all the
   unknown ones, and there is no other label.
   */
  lemma {:induction false} CountsByLabel(seen: seq<Observation>, k: HistKey)
    ensures HistOf(seen, k).count == if k.verb in METHODS && k.route in ROUTES then RawCount(seen, k) else 0
  {
    if seen != [] {
      CountsByLabel(seen[..|seen| - 1], k);
      KeysInPairs(seen[|seen| - 1]);
      if k.verb in METHODS && k.route in ROUTES {
        LabelIsUnder(seen[|seen| - 1], k);
      }
    }
  }

  /** Whatever methods and paths are probed, there are at most 80 histograms. */
  lemma AtMost80Histograms(keys: set<HistKey>)
    requires forall k | k in keys :: exists o :: HistKeyOf(o) == k
    ensures |keys| <= 80
  {
    var m, r := SetOf(METHODS), SetOf(ROUTES);
    forall k | k in keys ensures k in Pairs(m, r) {
      var o :| HistKeyOf(o) == k;
      KeysInPairs(o);
    }
    SubsetSize(keys, Pairs(m, r));
    PairsCount(m, r);
    SetOfSize(METHODS);
    SetOfSize(ROUTES);
    ProductBound(|m|, |r|);
  }

  lemma {:induction false} CountedWasSeen(seen: seq<Observation>, k: HistKey)
    requires TotalOf(seen, k) > 0
    ensures exists o :: HistKeyOf(o) == k
  {
    if HistKeyOf(seen[|seen| - 1]) != k {
      CountedWasSeen(seen[..|seen| - 1], k);
    }
  }

  /** The registry holds at most 80 histograms, whatever has been observed. */
  lemma RegistryIsBounded(m: Metrics)
    requires m.Valid()
    ensures |m.hists| <= 80
  {
    forall k | k in m.hists.Keys ensures exists o :: HistKeyOf(o) == k {
      CountedWasSeen(m.seen, k);
    }
    AtMost80Histograms(m.hists.Keys);
  }

  // --- One more observation ---

  ghost function Plus(h: Hist, value: real): Hist
    requires |h.buckets| == |BUCKETS|
  {
    Hist(seq(|BUCKETS|, i requires 0 <= i < |BUCKETS| => h.buckets[i] + if value <= BUCKETS[i] then 1 else 0),
         h.sum + value, h.count + 1)
  }

  ghost function EmptyHist(): Hist {
    Hist(seq(|BUCKETS|, i => 0), 0.0, 0)
  }

  lemma HistOfStep(seen: seq<Observation>, o: Observation, k: HistKey)
    ensures HistOf(seen + [o], k) == if HistKeyOf(o) == k then Plus(HistOf(seen, k), o.latency) else HistOf(seen, k)
    ensures TotalOf(seen + [o], k) == TotalOf(seen, k) + if HistKeyOf(o) == k then 1 else 0
  {
    assert (seen + [o])[..|seen|] == seen;
    var a, b := HistOf(seen + [o], k), if HistKeyOf(o) == k then Plus(HistOf(seen, k), o.latency) else HistOf(seen, k);
    forall i | 0 <= i < |BUCKETS| ensures a.buckets[i] == b.buckets[i] { }
    assert a.buckets == b.buckets;
  }

  /**
   One observation counts once: in the histogram of its method and path, or of `other` for unknown ones, it adds
   one to the count, its latency to the sum and one to each bucket whose bound it does not exceed.
   */
  lemma ObservationCounts(seen: seq<Observation>, o: Observation, k: HistKey)
    ensures var before, after := HistOf(seen, k), HistOf(seen + [o], k);
            var mine := && k.verb == (if o.verb in METHODS then o.verb else "other")
                        && k.route == (if o.path in ROUTES then o.path else "other");
            && after.count == before.count + (if mine then 1 else 0)
            && after.sum == before.sum + (if mine then o.latency else 0.0)
            && |after.buckets| == |before.buckets| == |BUCKETS|
            && (forall i | 0 <= i < |BUCKETS| ::
                  after.buckets[i] == before.buckets[i] + if mine && o.latency <= BUCKETS[i] then 1 else 0)
    ensures HistOf([], k).count == 0 && HistOf([], k).sum == 0.0
    ensures forall i | 0 <= i < |BUCKETS| :: HistOf([], k).buckets[i] == 0
  {
    HistOfStep(seen, o, k);
  }

  /** And once in the counter of its method, path and status, and in no other. */
  lemma ObservationIsCounted(seen: seq<Observation>, o: Observation, k: CounterKey)
    ensures CountOf([], k) == 0
    ensures CountOf(seen + [o], k) == CountOf(seen, k)
              + if && k.verb == (if o.verb in METHODS then o.verb else "other")
                   && k.route == (if o.path in ROUTES then o.path else "other")
                   && k.status == o.status && k.outcome == OutcomeFor(o.status)
                then 1 else 0
  {
    CountOfStep(seen, o, k);
  }

  lemma {:induction false} NothingSeen(seen: seq<Observation>, k: HistKey)
    requires TotalOf(seen, k) == 0
    ensures SumOf(seen, k) == 0.0 && HistOf(seen, k) == EmptyHist()
  {
    if seen != [] {
      NothingSeen(seen[..|seen| - 1], k);
    }
    forall i | 0 <= i < |BUCKETS| ensures WithinOf(seen, k, BUCKETS[i]) == 0 {
      WithinIsMonotone(seen, k, BUCKETS[i], BUCKETS[i]);
    }
    assert HistOf(seen, k).buckets == EmptyHist().buckets;
  }

  lemma CountOfStep(seen: seq<Observation>, o: Observation, k: CounterKey)
    ensures CountOf(seen + [o], k) == CountOf(seen, k) + if CounterKeyOf(o) == k then 1 else 0
  {
    assert (seen + [o])[..|seen|] == seen;
  }

  // --- The registry ---

  class Histogram {
    const buckets: array<nat>
    var sum: real
    var count: nat

    ghost predicate Valid()
      reads this
    {
      buckets.Length == |BUCKETS|
    }

    ghost function Value(): Hist
      reads this, buckets
    {
      Hist(buckets[..], sum, count)
    }

    constructor ()
      ensures Valid() && fresh(this) && fresh(buckets)
      ensures Value() == EmptyHist()
    {
      buckets := new nat[|BUCKETS|](i => 0);
      sum, count := 0.0, 0;
      new;
      assert buckets[..] == seq(|BUCKETS|, i => 0);
    }

    method Observe(value: real)
      requires Valid()
      modifies this, buckets
      ensures Valid() && Value() == Plus(old(Value()), value)
      ensures count == old(count) + 1 && sum == old(sum) + value
      ensures forall i | 0 <= i < |BUCKETS| :: buckets[i] == old(buckets[i]) + if value <= BUCKETS[i] then 1 else 0
    {
      for i := 0 to |BUCKETS|
        invariant forall j | 0 <= j < i :: buckets[j] == old(buckets[j]) + if value <= BUCKETS[j] then 1 else 0
        invariant forall j | i <= j < |BUCKETS| :: buckets[j] == old(buckets[j])
        invariant sum == old(sum) && count == old(count)
      {
        if value <= BUCKETS[i] {
          buckets[i] := buckets[i] + 1;
        }
      }
      sum := sum + value;
      count := count + 1;
      assert buckets[..] == Plus(old(Value()), value).buckets;
    }
  }

  class Metrics {
    var counters: map<CounterKey, nat>
    var hists: map<HistKey, Histogram>
    ghost var seen: seq<Observation>
    ghost var repr: set<object>

    /** Every histogram is its own object with its own buckets. */
    ghost predicate Separate()
      reads this, repr
    {
      && this !in repr
      && (forall k | k in hists :: hists[k] in repr && hists[k].buckets in repr && hists[k].Valid())
      && (forall a, b | a in hists && b in hists && a != b ::
            hists[a] != hists[b] && hists[a].buckets != hists[b].buckets)
    }

    ghost predicate CountersMatch(seen: seq<Observation>)
      reads this
    {
      forall k :: if k in counters then counters[k] == CountOf(seen, k) && counters[k] > 0 else CountOf(seen, k) == 0
    }

    ghost predicate HistsMatch(seen: seq<Observation>)
      requires Separate()
      reads this, repr
    {
      forall k ::
          if k in hists then hists[k].Value() == HistOf(seen, k) && TotalOf(seen, k) > 0 else TotalOf(seen, k) == 0
    }

    /** The registry holds exactly what the observations add up to. */
    ghost predicate Valid()
      reads this, repr
    {
      Separate() && CountersMatch(seen) && HistsMatch(seen)
    }

    constructor ()
      ensures Valid() && seen == [] && fresh(repr)
    {
      counters, hists, seen, repr := map[], map[], [], {};
    }

    method ObserveRequest(verb: string, path: string, status: Status, latency: real)
      requires Valid()
      modifies this, repr
      ensures Valid() && seen == old(seen) + [Observation(verb, path, status, latency)]
      ensures fresh(repr - old(repr))
    {
      ghost var o := Observation(verb, path, status, latency);
      Count(CounterKey(NormalizeMethod(verb), NormalizeRoute(path), status, OutcomeFor(status)), o);
      Observe(HistKey(NormalizeMethod(verb), NormalizeRoute(path)), latency, o);
      seen := seen + [o];
    }

    /** `*counters.entry(k).or_insert(0) += 1` */
    method Count(k: CounterKey, ghost o: Observation)
      requires CountersMatch(seen) && k == CounterKeyOf(o)
      modifies this`counters
      ensures CountersMatch(seen + [o])
    {
      counters := counters[k := (if k in counters then counters[k] else 0) + 1];
      forall x ensures CountOf(seen + [o], x) == CountOf(seen, x) + if k == x then 1 else 0 { CountOfStep(seen, o, x); }
    }

    /** `hists.entry(k).or_insert_with(Histogram::new)` */
    method Entry(k: HistKey)
      requires Separate() && HistsMatch(seen)
      modifies this`hists, this`repr
      ensures Separate() && k in hists && fresh(repr - old(repr))
      ensures forall x | x in hists :: hists[x].Value() == HistOf(seen, x)
      ensures forall x | x != k :: x in hists <==> TotalOf(seen, x) > 0
    {
      if k !in hists {
        NothingSeen(seen, k);
        var h := new Histogram();
        hists := hists[k := h];
        repr := repr + {h, h.buckets};
      }
    }

    /** `hists.entry(k).or_insert_with(Histogram::new).observe(latency)` */
    method Observe(k: HistKey, latency: real, ghost o: Observation)
      requires Separate() && HistsMatch(seen) && k == HistKeyOf(o) && latency == o.latency
      modifies this`hists, this`repr, repr
      ensures Separate() && HistsMatch(seen + [o])
      ensures fresh(repr - old(repr))
    {
      Entry(k);
      label entered:
      hists[k].Observe(latency);
      assert forall x | x in hists && x != k :: hists[x].Value() == old@entered(hists[x].Value());
      forall x
        ensures if x in hists then hists[x].Value() == HistOf(seen + [o], x) && TotalOf(seen + [o], x) > 0
                else TotalOf(seen + [o], x) == 0
      {
        HistOfStep(seen, o, x);
      }
    }
  }
}
