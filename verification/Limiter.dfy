// The token bucket limiter: a script that refills lazily, writes only when it grants, and lets an
// idle bucket expire. Levels are reals; times are milliseconds, of which the script sees whole seconds.
module Limiter {
  import opened Common

  const TTL: int := 3_600_000

  function Seconds(at: int): (s: int)
    ensures 1000 * s <= at < 1000 * (s + 1)
  {
    at / 1000
  }

  datatype Dimension = Dimension(kind: string, identifier: string, capacity: int, rate: real)

  /** A stored bucket, gone from `expires` on. */
  datatype Stored = Stored(tokens: real, lastUpdate: int, expires: int)

  datatype Call = Call(requested: int, at: int)

  function Min(a: real, b: real): real {
    if a <= b then a else b
  }

  function Live(s: Option<Stored>, at: int): bool {
    s.Some? && at < s.value.expires
  }

  /** The level the script finds: a missing bucket counts as full and just updated. */
  function Level(s: Option<Stored>, capacity: int, rate: real, at: int): real {
    var now := Seconds(at);
    var (tokens, lastUpdate) :=
      if Live(s, at) then (s.value.tokens, s.value.lastUpdate) else (capacity as real, now);
    Min(capacity as real, tokens + (now - lastUpdate) as real * rate)
  }

  function Script(s: Option<Stored>, capacity: int, rate: real, call: Call): (Option<Stored>, bool) {
    var tokens := Level(s, capacity, rate, call.at);
    if tokens >= call.requested as real
    then (Some(Stored(tokens - call.requested as real, Seconds(call.at), call.at + TTL)), true)
    else (s, false)
  }

  // ---------------------------------------------------------------------------
  // Runs of one bucket

  /** The calls on one bucket come in time order and ask for no negative amount. */
  ghost predicate Timed(calls: seq<Call>) {
    && (forall c :: c in calls ==> c.requested >= 0)
    && (forall i, j :: 0 <= i < j < |calls| ==> calls[i].at <= calls[j].at)
  }

  function After(capacity: int, rate: real, calls: seq<Call>): Option<Stored> {
    if calls == [] then None
    else Script(After(capacity, rate, calls[..|calls| - 1]), capacity, rate, calls[|calls| - 1]).0
  }

  predicate Granted(capacity: int, rate: real, calls: seq<Call>, i: nat)
    requires i < |calls|
  {
    Script(After(capacity, rate, calls[..i]), capacity, rate, calls[i]).1
  }

  // ---------------------------------------------------------------------------
  // The bucket it stands for: refilled and stored on every call, never expiring

  datatype Eager = Eager(tokens: real, lastUpdate: int)

  function Refilled(e: Eager, capacity: int, rate: real, now: int): real {
    Min(capacity as real, e.tokens + (now - e.lastUpdate) as real * rate)
  }

  function EagerStep(e: Eager, capacity: int, rate: real, call: Call): (Eager, bool) {
    var now := Seconds(call.at);
    var tokens := Refilled(e, capacity, rate, now);
    if tokens >= call.requested as real then (Eager(tokens - call.requested as real, now), true)
    else (Eager(tokens, now), false)
  }

  function EagerAfter(capacity: int, rate: real, calls: seq<Call>): Eager
    requires calls != []
  {
    if |calls| == 1 then EagerStep(Eager(capacity as real, Seconds(calls[0].at)), capacity, rate, calls[0]).0
    else EagerStep(EagerAfter(capacity, rate, calls[..|calls| - 1]), capacity, rate, calls[|calls| - 1]).0
  }

  predicate EagerGranted(capacity: int, rate: real, calls: seq<Call>, i: nat)
    requires i < |calls|
  {
    var e := if i == 0 then Eager(capacity as real, Seconds(calls[0].at)) else EagerAfter(capacity, rate, calls[..i]);
    EagerStep(e, capacity, rate, calls[i]).1
  }

  lemma Times(a: real, b: real, rate: real)
    requires a <= b && rate >= 0.0
    ensures a * rate <= b * rate
  {
    assert b * rate - a * rate == (b - a) * rate;
  }

  lemma NonNegative(a: real, rate: real)
    requires a >= 0.0 && rate >= 0.0
    ensures a * rate >= 0.0
  {
  }

  lemma Spread(a: int, b: int, c: int, rate: real)
    ensures (c - a) as real * rate == (b - a) as real * rate + (c - b) as real * rate
  {
    assert (c - a) as real == (b - a) as real + (c - b) as real;
  }

  /** From `at` on, the lazy bucket finds the level that the eager one has. */
  ghost predicate SameLevels(s: Option<Stored>, e: Eager, capacity: int, rate: real, at: int) {
    && 0.0 <= e.tokens <= capacity as real
    && e.lastUpdate <= Seconds(at)
    && (forall later :: later >= at ==> Level(s, capacity, rate, later) == Refilled(e, capacity, rate, Seconds(later)))
  }

  lemma RefillTwice(e: Eager, capacity: int, rate: real, mid: int, now: int)
    requires rate >= 0.0 && e.lastUpdate <= mid <= now
    ensures Refilled(Eager(Refilled(e, capacity, rate, mid), mid), capacity, rate, now)
            == Refilled(e, capacity, rate, now)
  {
    Spread(e.lastUpdate, mid, now, rate);
    NonNegative((now - mid) as real, rate);
  }

  /** A bucket that expires would have been full again by then. */
  lemma ExpiredIsFull(tokens: real, capacity: int, rate: real, written: int, at: int)
    requires 0.0 <= tokens && rate >= 0.0 && capacity as real <= 3600.0 * rate
    requires at >= written + TTL
    ensures Refilled(Eager(tokens, Seconds(written)), capacity, rate, Seconds(at)) == capacity as real
  {
    var passed := Seconds(at) - Seconds(written);
    assert passed >= 3600;
    hide Seconds;
    Times(3600.0, passed as real, rate);
  }

  lemma GrantSameLevels(tokens: real, capacity: int, rate: real, at: int)
    requires 0.0 <= tokens <= capacity as real && rate >= 0.0 && capacity as real <= 3600.0 * rate
    ensures SameLevels(Some(Stored(tokens, Seconds(at), at + TTL)), Eager(tokens, Seconds(at)), capacity, rate, at)
  {
    var s, e := Some(Stored(tokens, Seconds(at), at + TTL)), Eager(tokens, Seconds(at));
    forall later | later >= at
      ensures Level(s, capacity, rate, later) == Refilled(e, capacity, rate, Seconds(later))
    {
      if later >= at + TTL {
        ExpiredIsFull(tokens, capacity, rate, at, later);
        assert (Seconds(later) - Seconds(later)) as real * rate == 0.0;
      }
    }
  }

  lemma RejectSameLevels(s: Option<Stored>, e: Eager, capacity: int, rate: real, at: int)
    requires rate >= 0.0 && SameLevels(s, e, capacity, rate, at)
    ensures SameLevels(s, Eager(Refilled(e, capacity, rate, Seconds(at)), Seconds(at)), capacity, rate, at)
  {
    var now := Seconds(at);
    NonNegative((now - e.lastUpdate) as real, rate);
    forall later | later >= at
      ensures Level(s, capacity, rate, later)
              == Refilled(Eager(Refilled(e, capacity, rate, now), now), capacity, rate, Seconds(later))
    {
      RefillTwice(e, capacity, rate, now, Seconds(later));
    }
  }

  lemma StepSameLevels(s: Option<Stored>, e: Eager, capacity: int, rate: real, call: Call)
    requires 0 <= capacity && rate >= 0.0 && capacity as real <= 3600.0 * rate && call.requested >= 0
    requires SameLevels(s, e, capacity, rate, call.at)
    ensures Script(s, capacity, rate, call).1 == EagerStep(e, capacity, rate, call).1
    ensures SameLevels(Script(s, capacity, rate, call).0, EagerStep(e, capacity, rate, call).0, capacity, rate, call.at)
  {
    var tokens := Refilled(e, capacity, rate, Seconds(call.at));
    assert tokens == Level(s, capacity, rate, call.at);
    assert tokens <= capacity as real;
    hide SameLevels, Level, Refilled;
    if tokens >= call.requested as real {
      GrantSameLevels(tokens - call.requested as real, capacity, rate, call.at);
    } else {
      RejectSameLevels(s, e, capacity, rate, call.at);
    }
  }

  lemma {:induction false} RunSameLevels(capacity: int, rate: real, calls: seq<Call>)
    requires 0 <= capacity && rate >= 0.0 && capacity as real <= 3600.0 * rate
    requires calls != [] && Timed(calls)
    ensures SameLevels(After(capacity, rate, calls), EagerAfter(capacity, rate, calls), capacity, rate,
                       calls[|calls| - 1].at)
    ensures Granted(capacity, rate, calls, |calls| - 1) == EagerGranted(capacity, rate, calls, |calls| - 1)
  {
    var init, call := calls[..|calls| - 1], calls[|calls| - 1];
    if init == [] {
      var full := Eager(capacity as real, Seconds(call.at));
      forall later | later >= call.at
        ensures Level(None, capacity, rate, later) == Refilled(full, capacity, rate, Seconds(later))
      {
        NonNegative((Seconds(later) - Seconds(call.at)) as real, rate);
      }
      StepSameLevels(None, full, capacity, rate, call);
    } else {
      RunSameLevels(capacity, rate, init);
      StepSameLevels(After(capacity, rate, init), EagerAfter(capacity, rate, init), capacity, rate, call);
    }
  }

  ghost predicate AlwaysAgrees(capacity: int, rate: real) {
    forall calls, i :: Timed(calls) && 0 <= i < |calls| ==>
      Granted(capacity, rate, calls, i) == EagerGranted(capacity, rate, calls, i)
  }

  /** The lazy, expiring bucket decides like the eager, lasting one on every run exactly when an hour
      refills it. */
  lemma LazyIsEagerIffHourRefills(capacity: int, rate: real)
    requires 0 <= capacity && rate >= 0.0
    ensures AlwaysAgrees(capacity, rate) <==> capacity as real <= 3600.0 * rate
  {
    if capacity as real <= 3600.0 * rate {
      forall calls, i | Timed(calls) && 0 <= i < |calls|
        ensures Granted(capacity, rate, calls, i) == EagerGranted(capacity, rate, calls, i)
      {
        RunSameLevels(capacity, rate, calls[..i + 1]);
        assert calls[..i + 1][..i] == calls[..i];
      }
    } else {
      var calls := TwiceInAnHour(capacity);
      DrainedTwice(capacity, rate);
      assert !EagerGranted(capacity, rate, calls, 1);
    }
  }

  /** The whole capacity, and again an hour later. */
  function TwiceInAnHour(capacity: int): seq<Call> {
    [Call(capacity, 0), Call(capacity, TTL)]
  }

  lemma DrainedTwice(capacity: int, rate: real)
    requires 0 <= capacity && rate >= 0.0
    ensures Timed(TwiceInAnHour(capacity))
    ensures var calls := TwiceInAnHour(capacity);
            && Granted(capacity, rate, calls, 0) && Granted(capacity, rate, calls, 1)
            && (EagerGranted(capacity, rate, calls, 1) ==> capacity as real <= 3600.0 * rate)
  {
    var calls := TwiceInAnHour(capacity);
    assert calls[..1] == [calls[0]] && calls[..0] == [];
    assert [calls[0]][..0] == [];
    assert After(capacity, rate, calls[..1]) == Some(Stored(0.0, 0, TTL));
    assert EagerAfter(capacity, rate, calls[..1]) == Eager(0.0, 0);
  }

  // ---------------------------------------------------------------------------
  // How much one bucket can grant in an interval

  function Sum(capacity: int, rate: real, calls: seq<Call>, i: nat, j: nat): int
    requires i <= j <= |calls|
  {
    if i == j then 0
    else Sum(capacity, rate, calls, i, j - 1) + Spent(capacity, rate, calls, j - 1)
  }

  lemma EagerSpends(e: Eager, capacity: int, rate: real, call: Call)
    ensures var (e', granted) := EagerStep(e, capacity, rate, call);
            var spent := if granted then call.requested as real else 0.0;
            && e'.lastUpdate == Seconds(call.at)
            && spent + e'.tokens <= capacity as real
            && spent + e'.tokens <= e.tokens + (Seconds(call.at) - e.lastUpdate) as real * rate
  {
  }

  function Spent(capacity: int, rate: real, calls: seq<Call>, i: nat): int
    requires i < |calls|
  {
    if Granted(capacity, rate, calls, i) then calls[i].requested else 0
  }

  lemma {:induction false} EagerState(capacity: int, rate: real, calls: seq<Call>)
    requires 0 <= capacity && rate >= 0.0 && capacity as real <= 3600.0 * rate
    requires calls != [] && Timed(calls)
    ensures EagerAfter(capacity, rate, calls).tokens >= 0.0
    ensures EagerAfter(capacity, rate, calls).lastUpdate == Seconds(calls[|calls| - 1].at)
    ensures Granted(capacity, rate, calls, |calls| - 1) == EagerGranted(capacity, rate, calls, |calls| - 1)
  {
    RunSameLevels(capacity, rate, calls);
  }

  function Refill(rate: real, from: int, to: int): real {
    (to - from) as real * rate
  }

  lemma RefillAdds(rate: real, from: int, mid: int, to: int)
    ensures Refill(rate, from, from) == 0.0
    ensures Refill(rate, from, to) == Refill(rate, from, mid) + Refill(rate, mid, to)
  {
    Spread(from, mid, to, rate);
  }

  /** The eager bucket before the last call. */
  function EagerBefore(capacity: int, rate: real, calls: seq<Call>): Eager
    requires calls != []
  {
    if |calls| == 1 then Eager(capacity as real, Seconds(calls[0].at))
    else EagerAfter(capacity, rate, calls[..|calls| - 1])
  }

  lemma {:induction false} EagerLast(capacity: int, rate: real, calls: seq<Call>)
    requires calls != []
    ensures var step := EagerStep(EagerBefore(capacity, rate, calls), capacity, rate, calls[|calls| - 1]);
            EagerAfter(capacity, rate, calls) == step.0 && EagerGranted(capacity, rate, calls, |calls| - 1) == step.1
  {
  }

  /** What the last call spends comes out of the eager bucket. */
  lemma {:induction false} LastCallSpends(capacity: int, rate: real, calls: seq<Call>)
    requires 0 <= capacity && rate >= 0.0 && capacity as real <= 3600.0 * rate
    requires calls != [] && Timed(calls)
    ensures var e, left := EagerBefore(capacity, rate, calls), EagerAfter(capacity, rate, calls).tokens;
            var spent := Spent(capacity, rate, calls, |calls| - 1) as real;
            && 0.0 <= left
            && spent + left <= capacity as real
            && spent + left <= e.tokens + Refill(rate, e.lastUpdate, Seconds(calls[|calls| - 1].at))
  {
    hide EagerStep, EagerBefore, EagerAfter, EagerGranted, Granted, Timed;
    EagerState(capacity, rate, calls);
    EagerLast(capacity, rate, calls);
    EagerSpends(EagerBefore(capacity, rate, calls), capacity, rate, calls[|calls| - 1]);
  }

  /** Granted amounts of calls `i` to `j`, on top of what the bucket is left with, fit in one capacity
      and the refill of the time between them. */
  lemma {:induction false} LevelPaysForGrants(capacity: int, rate: real, calls: seq<Call>, i: nat, j: nat)
    requires 0 <= capacity && rate >= 0.0 && capacity as real <= 3600.0 * rate
    requires Timed(calls) && i < j <= |calls|
    ensures Sum(capacity, rate, calls, i, j) as real + EagerAfter(capacity, rate, calls[..j]).tokens
            <= capacity as real + Refill(rate, Seconds(calls[i].at), Seconds(calls[j - 1].at))
  {
    LastOfPrefix(capacity, rate, calls, j);
    hide EagerAfter, EagerBefore, Granted, Spent, Timed, Refill, Seconds;
    LastCallSpends(capacity, rate, calls[..j]);
    if j == i + 1 {
      assert Sum(capacity, rate, calls, i, i) == 0;
      RefillAdds(rate, Seconds(calls[i].at), Seconds(calls[i].at), Seconds(calls[i].at));
    } else {
      LevelPaysForGrants(capacity, rate, calls, i, j - 1);
      RefillAdds(rate, Seconds(calls[i].at), Seconds(calls[j - 2].at), Seconds(calls[j - 1].at));
    }
  }

  lemma {:induction false} LastOfPrefix(capacity: int, rate: real, calls: seq<Call>, j: nat)
    requires 0 <= capacity && rate >= 0.0 && capacity as real <= 3600.0 * rate
    requires Timed(calls) && 0 < j <= |calls|
    ensures Timed(calls[..j]) && calls[..j][j - 1] == calls[j - 1]
    ensures Spent(capacity, rate, calls[..j], j - 1) == Spent(capacity, rate, calls, j - 1)
    ensures j > 1 ==>
              var e := EagerBefore(capacity, rate, calls[..j]);
              e == EagerAfter(capacity, rate, calls[..j - 1]) && e.lastUpdate == Seconds(calls[j - 2].at)
  {
    assert calls[..j][..j - 1] == calls[..j - 1];
    if j > 1 {
      EagerState(capacity, rate, calls[..j - 1]);
    }
  }

  ghost predicate WithinBound(capacity: int, rate: real, calls: seq<Call>, i: nat, j: nat)
    requires i < j <= |calls|
  {
    Sum(capacity, rate, calls, i, j) as real
    <= capacity as real + (Seconds(calls[j - 1].at) - Seconds(calls[i].at)) as real * rate
  }

  lemma HourRefillsBounds(capacity: int, rate: real, calls: seq<Call>, i: nat, j: nat)
    requires 0 <= capacity && rate >= 0.0 && capacity as real <= 3600.0 * rate
    requires Timed(calls) && i < j <= |calls|
    ensures WithinBound(capacity, rate, calls, i, j)
  {
    hide EagerAfter, Granted, Spent;
    LevelPaysForGrants(capacity, rate, calls, i, j);
    LastCallSpends(capacity, rate, calls[..j]);
  }

  ghost predicate AlwaysWithinBound(capacity: int, rate: real) {
    forall calls, i, j :: Timed(calls) && 0 <= i < j <= |calls| ==> WithinBound(capacity, rate, calls, i, j)
  }

  /** In every run and every interval a bucket grants at most its capacity and the refill of the
      interval, exactly when an hour refills it. */
  lemma IntervalBoundIffHourRefills(capacity: int, rate: real)
    requires 0 <= capacity && rate >= 0.0
    ensures AlwaysWithinBound(capacity, rate) <==> capacity as real <= 3600.0 * rate
  {
    if capacity as real <= 3600.0 * rate {
      forall calls, i, j | Timed(calls) && 0 <= i < j <= |calls|
        ensures WithinBound(capacity, rate, calls, i, j)
      {
        HourRefillsBounds(capacity, rate, calls, i, j);
      }
    } else {
      var calls := TwiceInAnHour(capacity);
      DrainedTwice(capacity, rate);
      assert Sum(capacity, rate, calls, 0, 2) == Sum(capacity, rate, calls, 0, 1) + capacity;
      assert Sum(capacity, rate, calls, 0, 1) == Sum(capacity, rate, calls, 0, 0) + capacity;
      assert !WithinBound(capacity, rate, calls, 0, 2);
    }
  }
}
