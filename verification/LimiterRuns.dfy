// Many requests at once: the checks of different requests interleave one script run at a time.
module LimiterRuns {
  import opened Limiter
  import opened MultiLimiter

  datatype Request = Request(user: string, app: string, model: string, tokens: int)

  /** Request number `r` runs its next check at `at`. */
  datatype Hit = Hit(r: nat, at: int)

  /** How many checks a request has passed, and whether one refused it. */
  datatype Progress = Progress(passed: nat, denied: bool)

  datatype Sys = Sys(store: Store, progress: seq<Progress>)

  function Dim(l: Limits, req: Request, n: nat): Dimension
    requires n < 3
  {
    Dims(l, req.user, req.app, req.model)[n]
  }

  predicate Enabled(s: Sys, h: Hit) {
    h.r < |s.progress| && !s.progress[h.r].denied && s.progress[h.r].passed < 3
  }

  function Target(l: Limits, reqs: seq<Request>, s: Sys, h: Hit): Dimension
    requires |s.progress| == |reqs| && Enabled(s, h)
  {
    Dim(l, reqs[h.r], s.progress[h.r].passed)
  }

  function Step(l: Limits, reqs: seq<Request>, s: Sys, h: Hit): (Sys, bool)
    requires |s.progress| == |reqs| && Enabled(s, h)
  {
    var p := s.progress[h.r];
    var (store, ok) := AllowOn(s.store, Target(l, reqs, s, h), reqs[h.r].tokens, h.at);
    var p' := if ok then Progress(p.passed + 1, false) else Progress(p.passed, true);
    (Sys(store, s.progress[h.r := p']), ok)
  }

  function Start(reqs: seq<Request>): Sys {
    Sys(map[], seq(|reqs|, _ => Progress(0, false)))
  }

  /** Hits are enabled one after the other. */
  predicate Runs(l: Limits, reqs: seq<Request>, hits: seq<Hit>)
    decreases |hits|, 0
  {
    hits == [] ||
    (Runs(l, reqs, hits[..|hits| - 1]) && Enabled(RunTo(l, reqs, hits[..|hits| - 1]), hits[|hits| - 1]))
  }

  function RunTo(l: Limits, reqs: seq<Request>, hits: seq<Hit>): (s: Sys)
    requires Runs(l, reqs, hits)
    ensures |s.progress| == |reqs|
    decreases |hits|, 1
  {
    if hits == [] then Start(reqs)
    else Step(l, reqs, RunTo(l, reqs, hits[..|hits| - 1]), hits[|hits| - 1]).0
  }

  // ---------------------------------------------------------------------------
  // What each level charges in all

  /** Tokens charged at level `n` (user, app, model) over the run. */
  function ChargedAt(l: Limits, reqs: seq<Request>, hits: seq<Hit>, n: nat): int
    requires Runs(l, reqs, hits)
  {
    if hits == [] then 0
    else
      var init, h := hits[..|hits| - 1], hits[|hits| - 1];
      var s := RunTo(l, reqs, init);
      ChargedAt(l, reqs, init, n) +
      if s.progress[h.r].passed == n && Step(l, reqs, s, h).1 then reqs[h.r].tokens else 0
  }

  /** Tokens of the requests, among the first `k`, that passed more than `n` checks. */
  function Passed(reqs: seq<Request>, progress: seq<Progress>, n: nat, k: nat): int
    requires k <= |reqs| == |progress|
  {
    if k == 0 then 0
    else Passed(reqs, progress, n, k - 1) + if progress[k - 1].passed > n then reqs[k - 1].tokens else 0
  }

  lemma {:induction false} PassedUpdate(reqs: seq<Request>, progress: seq<Progress>, n: nat, k: nat,
                                             r: nat, p: Progress)
    requires k <= |reqs| == |progress| && r < |reqs|
    ensures Passed(reqs, progress[r := p], n, k) == Passed(reqs, progress, n, k)
              + if r >= k || (p.passed > n) == (progress[r].passed > n) then 0
                else if p.passed > n then reqs[r].tokens else -reqs[r].tokens
  {
    if k > 0 {
      PassedUpdate(reqs, progress, n, k - 1, r, p);
    }
  }

  lemma {:induction false} NothingPassed(reqs: seq<Request>, n: nat, k: nat)
    requires k <= |reqs|
    ensures Passed(reqs, Start(reqs).progress, n, k) == 0
  {
    if k > 0 {
      NothingPassed(reqs, n, k - 1);
    }
  }

  lemma {:induction false} ChargedIsPassed(l: Limits, reqs: seq<Request>, hits: seq<Hit>, n: nat)
    requires Runs(l, reqs, hits)
    ensures ChargedAt(l, reqs, hits, n) == Passed(reqs, RunTo(l, reqs, hits).progress, n, |reqs|)
  {
    if hits == [] {
      NothingPassed(reqs, n, |reqs|);
    } else {
      var init, h := hits[..|hits| - 1], hits[|hits| - 1];
      ChargedIsPassed(l, reqs, init, n);
      var s := RunTo(l, reqs, init);
      PassedUpdate(reqs, s.progress, n, |reqs|, h.r, Step(l, reqs, s, h).0.progress[h.r]);
    }
  }

  lemma {:induction false} PassedShrinks(reqs: seq<Request>, progress: seq<Progress>, n: nat, k: nat)
    requires k <= |reqs| == |progress| && (forall q :: q in reqs ==> q.tokens >= 0)
    ensures Passed(reqs, progress, n, k) >= Passed(reqs, progress, n + 1, k) >= 0
  {
    if k > 0 {
      PassedShrinks(reqs, progress, n, k - 1);
      assert reqs[k - 1] in reqs;
    }
  }

  /** Tokens of the requests, among the first `k`, that passed all three checks. */
  function Admitted(reqs: seq<Request>, progress: seq<Progress>, k: nat): int
    requires k <= |reqs| == |progress|
  {
    if k == 0 then 0
    else Admitted(reqs, progress, k - 1) + if progress[k - 1] == Progress(3, false) then reqs[k - 1].tokens else 0
  }

  lemma {:induction false} ThreeIsAdmitted(l: Limits, reqs: seq<Request>, hits: seq<Hit>)
    requires Runs(l, reqs, hits)
    ensures forall r :: 0 <= r < |reqs| && RunTo(l, reqs, hits).progress[r].passed > 2 ==>
              RunTo(l, reqs, hits).progress[r] == Progress(3, false)
  {
    if hits != [] {
      ThreeIsAdmitted(l, reqs, hits[..|hits| - 1]);
    }
  }

  lemma {:induction false} AdmittedIsPassed(reqs: seq<Request>, progress: seq<Progress>, k: nat)
    requires k <= |reqs| == |progress|
    requires forall r :: 0 <= r < |reqs| && progress[r].passed > 2 ==> progress[r] == Progress(3, false)
    ensures Admitted(reqs, progress, k) == Passed(reqs, progress, 2, k)
  {
    if k > 0 {
      AdmittedIsPassed(reqs, progress, k - 1);
    }
  }

  /** However the checks interleave, users are charged at least what apps are, apps at least what
      models are, and models exactly what the admitted requests ask for. */
  lemma {:induction false} ChargesNest(l: Limits, reqs: seq<Request>, hits: seq<Hit>)
    requires Runs(l, reqs, hits) && (forall q :: q in reqs ==> q.tokens >= 0)
    ensures ChargedAt(l, reqs, hits, 0) >= ChargedAt(l, reqs, hits, 1) >= ChargedAt(l, reqs, hits, 2)
    ensures ChargedAt(l, reqs, hits, 2) == Admitted(reqs, RunTo(l, reqs, hits).progress, |reqs|)
  {
    var progress := RunTo(l, reqs, hits).progress;
    ChargedIsPassed(l, reqs, hits, 0);
    ChargedIsPassed(l, reqs, hits, 1);
    ChargedIsPassed(l, reqs, hits, 2);
    PassedShrinks(reqs, progress, 0, |reqs|);
    PassedShrinks(reqs, progress, 1, |reqs|);
    ThreeIsAdmitted(l, reqs, hits);
    AdmittedIsPassed(reqs, progress, |reqs|);
  }

  // ---------------------------------------------------------------------------
  // Each bucket keeps its own bound

  /** The last hit of the run is on bucket `key`. */
  predicate LastOn(l: Limits, reqs: seq<Request>, hits: seq<Hit>, key: string)
    requires hits != [] && Runs(l, reqs, hits)
  {
    BuildKey(Target(l, reqs, RunTo(l, reqs, hits[..|hits| - 1]), hits[|hits| - 1])) == key
  }

  predicate LastGranted(l: Limits, reqs: seq<Request>, hits: seq<Hit>)
    requires hits != [] && Runs(l, reqs, hits)
  {
    Step(l, reqs, RunTo(l, reqs, hits[..|hits| - 1]), hits[|hits| - 1]).1
  }

  /** The calls that the run makes on one bucket. */
  function CallsOn(l: Limits, reqs: seq<Request>, hits: seq<Hit>, key: string): seq<Call>
    requires Runs(l, reqs, hits)
  {
    if hits == [] then []
    else
      var h := hits[|hits| - 1];
      assert Enabled(RunTo(l, reqs, hits[..|hits| - 1]), h);
      CallsOn(l, reqs, hits[..|hits| - 1], key) +
      if LastOn(l, reqs, hits, key) then [Call(reqs[h.r].tokens, h.at)] else []
  }

  /** Tokens granted on one bucket by the hits from number `i` on. */
  function GrantedOn(l: Limits, reqs: seq<Request>, hits: seq<Hit>, key: string, i: nat): int
    requires i <= |hits| && Runs(l, reqs, hits)
  {
    if i == |hits| then 0
    else
      var h := hits[|hits| - 1];
      assert Enabled(RunTo(l, reqs, hits[..|hits| - 1]), h);
      GrantedOn(l, reqs, hits[..|hits| - 1], key, i) +
      if LastOn(l, reqs, hits, key) && LastGranted(l, reqs, hits) then reqs[h.r].tokens else 0
  }

  ghost predicate Ordered(reqs: seq<Request>, hits: seq<Hit>) {
    && (forall q :: q in reqs ==> q.tokens >= 0)
    && (forall i, j :: 0 <= i < j < |hits| ==> hits[i].at <= hits[j].at)
  }

  /** `d` is one of the dimensions that the limits configure. */
  predicate Configured(l: Limits, d: Dimension) {
    || (d.kind == "user" && d.capacity == l.userCap && d.rate == l.userRate)
    || (d.kind == "app" && d.capacity == l.appCap && d.rate == l.appRate)
    || (d.kind == "model" && d.capacity == l.modelCap && d.rate == l.modelRate)
  }

  lemma SameKeySameDimension(l: Limits, req: Request, n: nat, d: Dimension)
    requires n < 3 && Configured(l, d) && BuildKey(Dim(l, req, n)) == BuildKey(d)
    ensures Dim(l, req, n) == d
  {
    KeysAreApart(Dim(l, req, n), d);
  }

  /** The bucket's level and its decisions are those of its own calls alone. */
  lemma {:induction false} BucketIsItsCalls(l: Limits, reqs: seq<Request>, hits: seq<Hit>, d: Dimension)
    requires Runs(l, reqs, hits) && Configured(l, d)
    ensures var calls := CallsOn(l, reqs, hits, BuildKey(d));
            && Find(RunTo(l, reqs, hits).store, BuildKey(d)) == After(d.capacity, d.rate, calls)
            && (hits != [] && LastOn(l, reqs, hits, BuildKey(d)) ==>
                 calls != [] && LastGranted(l, reqs, hits) == Granted(d.capacity, d.rate, calls, |calls| - 1))
  {
    if hits != [] {
      var init, h, key := hits[..|hits| - 1], hits[|hits| - 1], BuildKey(d);
      BucketIsItsCalls(l, reqs, init, d);
      var calls, s := CallsOn(l, reqs, hits, key), RunTo(l, reqs, init);
      hide Script;
      if LastOn(l, reqs, hits, key) {
        SameKeySameDimension(l, reqs[h.r], s.progress[h.r].passed, d);
        assert calls[..|calls| - 1] == CallsOn(l, reqs, init, key);
      } else {
        assert calls == CallsOn(l, reqs, init, key);
      }
    }
  }

  lemma {:induction false} CallsAreTimed(l: Limits, reqs: seq<Request>, hits: seq<Hit>, key: string)
    requires Runs(l, reqs, hits) && Ordered(reqs, hits)
    ensures Timed(CallsOn(l, reqs, hits, key))
    ensures forall c :: c in CallsOn(l, reqs, hits, key) ==> hits != [] && c.at <= hits[|hits| - 1].at
  {
    if hits != [] {
      var init := hits[..|hits| - 1];
      CallsAreTimed(l, reqs, init, key);
      assert init != [] ==> init[|init| - 1].at <= hits[|hits| - 1].at;
    }
  }

  lemma {:induction false} SumOfPrefix(capacity: int, rate: real, calls: seq<Call>, c: Call, i: nat, j: nat)
    requires i <= j <= |calls|
    ensures Sum(capacity, rate, calls + [c], i, j) == Sum(capacity, rate, calls, i, j)
  {
    if i < j {
      SumOfPrefix(capacity, rate, calls, c, i, j - 1);
      assert (calls + [c])[..j - 1] == calls[..j - 1];
    }
  }

  /** What the run grants on a bucket from hit `i` on is a sum over a suffix of the bucket's calls, and
      those calls are no earlier than the hit. */
  lemma {:induction false} GrantsAreASuffix(l: Limits, reqs: seq<Request>, hits: seq<Hit>, d: Dimension, i: nat)
    returns (m: nat)
    requires Runs(l, reqs, hits) && Configured(l, d) && Ordered(reqs, hits) && i <= |hits|
    ensures var calls := CallsOn(l, reqs, hits, BuildKey(d));
            && m <= |calls|
            && GrantedOn(l, reqs, hits, BuildKey(d), i) == Sum(d.capacity, d.rate, calls, m, |calls|)
            && (forall x :: m <= x < |calls| ==> i < |hits| && hits[i].at <= calls[x].at)
  {
    var key := BuildKey(d);
    var calls := CallsOn(l, reqs, hits, key);
    if i == |hits| {
      m := |calls|;
    } else {
      var init, h := hits[..|hits| - 1], hits[|hits| - 1];
      m := GrantsAreASuffix(l, reqs, init, d, i);
      BucketIsItsCalls(l, reqs, hits, d);
      hide Step, BuildKey, Granted;
      var before := CallsOn(l, reqs, init, key);
      assert i < |hits| - 1 ==> hits[i].at <= h.at;
      if LastOn(l, reqs, hits, key) {
        SumOfPrefix(d.capacity, d.rate, before, calls[|calls| - 1], m, |before|);
      } else {
        assert calls == before;
      }
    }
  }

  lemma WiderInterval(granted: real, capacity: real, a: real, b: real, rate: real)
    requires granted <= capacity + a * rate && a <= b && rate >= 0.0
    ensures granted <= capacity + b * rate
  {
    Times(a, b, rate);
  }

  lemma {:induction false} SuffixBound(capacity: int, rate: real, calls: seq<Call>, m: nat, first: int, last: int)
    requires 0 <= capacity && rate >= 0.0 && capacity as real <= 3600.0 * rate
    requires Timed(calls) && m < |calls| && first <= calls[m].at && calls[|calls| - 1].at <= last
    ensures Sum(capacity, rate, calls, m, |calls|) as real
            <= capacity as real + (Seconds(last) - Seconds(first)) as real * rate
  {
    hide Sum, Timed;
    HourRefillsBounds(capacity, rate, calls, m, |calls|);
    var from, to := Seconds(calls[m].at), Seconds(calls[|calls| - 1].at);
    assert Seconds(first) <= from && to <= Seconds(last);
    WiderInterval(Sum(capacity, rate, calls, m, |calls|) as real, capacity as real, (to - from) as real,
                  (Seconds(last) - Seconds(first)) as real, rate);
  }

  lemma {:induction false} NoCallsWithinBound(capacity: int, rate: real, calls: seq<Call>, first: int, last: int)
    requires 0 <= capacity && rate >= 0.0 && first <= last
    ensures Sum(capacity, rate, calls, |calls|, |calls|) as real
            <= capacity as real + (Seconds(last) - Seconds(first)) as real * rate
  {
    NonNegative((Seconds(last) - Seconds(first)) as real, rate);
  }

  /** In every interval of every interleaving, a user's, an app's or a model's bucket grants at most
      its capacity and the refill of the interval, if an hour refills it. */
  lemma {:induction false} EachBucketKeepsItsBound(l: Limits, reqs: seq<Request>, hits: seq<Hit>, d: Dimension, i: nat)
    requires Runs(l, reqs, hits) && Ordered(reqs, hits) && Configured(l, d) && i < |hits|
    requires 0 <= d.capacity && d.rate >= 0.0 && d.capacity as real <= 3600.0 * d.rate
    ensures GrantedOn(l, reqs, hits, BuildKey(d), i) as real
            <= d.capacity as real + (Seconds(hits[|hits| - 1].at) - Seconds(hits[i].at)) as real * d.rate
  {
    hide GrantedOn, CallsOn, BuildKey, Runs, Configured, Timed, Seconds, Sum;
    var first, last := hits[i].at, hits[|hits| - 1].at;
    assert i < |hits| - 1 ==> first <= last;
    var m := GrantsAreASuffix(l, reqs, hits, d, i);
    CallsAreTimed(l, reqs, hits, BuildKey(d));
    var calls := CallsOn(l, reqs, hits, BuildKey(d));
    hide Ordered;
    if m == |calls| {
      NoCallsWithinBound(d.capacity, d.rate, calls, first, last);
    } else {
      assert calls[|calls| - 1] in calls;
      SuffixBound(d.capacity, d.rate, calls, m, first, last);
    }
  }
}
