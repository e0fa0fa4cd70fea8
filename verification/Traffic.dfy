// Many failover calls, each in a thread of its own, sharing one circuit breaker.
module Traffic {
  import opened Common
  import SlidingWindow
  import Breaker
  import opened Failover

  /** An event of thread `id`, with the readings of the clock that the breaker takes for it. */
  datatype Step = Step(id: nat, event: Event, clock: Breaker.Clock)

  datatype Sys = Sys(phases: map<nat, Phase>, keys: Breaker.Keys)

  function PhaseOf(s: Sys, id: nat): Phase {
    if id in s.phases then s.phases[id] else Idle
  }

  function Do(cfg: Breaker.Config, s: Sys, step: Step): (s': Sys)
    requires Breaker.Sized(cfg, s.keys)
    ensures Breaker.Sized(cfg, s'.keys)
  {
    var phases := s.phases[step.id := Next(PhaseOf(s, step.id), step.event)];
    match step.event
    case Refused(k) => Sys(phases, Breaker.AllowKey(cfg, s.keys, k, step.clock).0)
    case Admitted(k) => Sys(phases, Breaker.AllowKey(cfg, s.keys, k, step.clock).0)
    case Executed(k, ok) => Sys(phases, s.keys)
    case Recorded(k, ok) =>
      Sys(phases, if ok then Breaker.SucceedKey(cfg, s.keys, k, step.clock)
                  else Breaker.FailKey(cfg, s.keys, k, step.clock))
  }

  /** The thread keeps to the failover pattern, and is told what the breaker says. */
  predicate Enabled(cfg: Breaker.Config, s: Sys, step: Step)
    requires Breaker.Sized(cfg, s.keys)
  {
    && Next(PhaseOf(s, step.id), step.event) != Wrong
    && (step.event.Admitted? ==> Breaker.AllowKey(cfg, s.keys, step.event.key, step.clock).1)
    && (step.event.Refused? ==> !Breaker.AllowKey(cfg, s.keys, step.event.key, step.clock).1)
  }

  ghost predicate Runs(cfg: Breaker.Config, s: Sys, steps: seq<Step>)
    requires Breaker.Sized(cfg, s.keys)
    decreases |steps|
  {
    steps == [] || (Enabled(cfg, s, steps[0]) && Runs(cfg, Do(cfg, s, steps[0]), steps[1..]))
  }

  /** Threads that were admitted on `key` and have not recorded their outcome. */
  predicate InFlight(s: Sys, key: string, id: nat) {
    var p := PhaseOf(s, id);
    (p.Holding? || p.Ran?) && p.key == key
  }

  predicate HalfOpen(s: Sys, key: string) {
    key in s.keys && s.keys[key].state.HalfOpen?
  }

  predicate Spent(cfg: Breaker.Config, s: Sys, key: string) {
    HalfOpen(s, key) && s.keys[key].probes >= cfg.maxRequests
  }

  lemma SpentStays(cfg: Breaker.Config, s: Sys, step: Step, key: string)
    requires Breaker.Sized(cfg, s.keys) && Enabled(cfg, s, step) && Spent(cfg, s, key)
    requires step.event != Recorded(key, true)
    ensures Spent(cfg, Do(cfg, s, step), key) && step.event != Admitted(key)
    ensures forall id :: InFlight(Do(cfg, s, step), key, id) ==> InFlight(s, key, id)
  {
  }

  /** Once a key's probes are spent, and none of the calls then in flight on it succeeds, the key is
      shut for good: whatever all threads go on to do, no later request is admitted on it. */
  lemma {:induction false} SpentAndFailedIsForever(cfg: Breaker.Config, s: Sys, steps: seq<Step>, key: string, i: nat)
    requires Breaker.Sized(cfg, s.keys) && Runs(cfg, s, steps) && Spent(cfg, s, key)
    requires forall step :: step in steps && step.event == Recorded(key, true) ==> !InFlight(s, key, step.id)
    requires i < |steps|
    ensures steps[i].event != Admitted(key)
    decreases |steps|
  {
    assert steps[0] in steps;
    SpentStays(cfg, s, steps[0], key);
    if i > 0 {
      SpentAndFailedIsForever(cfg, Do(cfg, s, steps[0]), steps[1..], key, i - 1);
    }
  }

  /** A success in flight that brings the rate below the threshold is enough to let traffic in again. */
  lemma {:induction false} SuccessLetsTrafficIn(cfg: Breaker.Config, s: Sys, key: string, id: nat, other: nat,
                                                     c: Breaker.Clock, c2: Breaker.Clock)
    requires Breaker.Sized(cfg, s.keys) && Spent(cfg, s, key)
    requires PhaseOf(s, id) == Ran(key, true) && PhaseOf(s, other) == Idle
    requires Breaker.Less(Breaker.ErrorRate(SlidingWindow.Recorded(s.keys[key].ring, c.t1, true), c.t2), cfg.threshold)
    ensures Runs(cfg, s, [Step(id, Recorded(key, true), c), Step(other, Admitted(key), c2)])
  {
    var a, b := Step(id, Recorded(key, true), c), Step(other, Admitted(key), c2);
    var s1 := Do(cfg, s, a);
    assert s1.keys[key].state.Closed?;
    assert Enabled(cfg, s1, b);
    assert [a, b][1..] == [b] && [b][1..] == [];
    assert Runs(cfg, s1, [b]);
  }

  // ---------------------------------------------------------------------------
  // Exactly when a spent key can be used again

  /** The thread holds an admission on `key`, and has not failed with it. */
  predicate MaySucceed(s: Sys, key: string, id: nat) {
    PhaseOf(s, id) == Holding(key) || PhaseOf(s, id) == Ran(key, true)
  }

  /** Some way for all threads to go on, with no clock reading before `now`, admits the key again. */
  ghost predicate CanAdmit(cfg: Breaker.Config, s: Sys, key: string, now: int)
    requires Breaker.Sized(cfg, s.keys)
  {
    exists steps :: Runs(cfg, s, steps) && Later(steps, now) && AdmitsOn(steps, key)
  }

  predicate AdmitsOn(steps: seq<Step>, key: string) {
    exists step :: step in steps && step.event == Admitted(key)
  }

  ghost predicate Later(steps: seq<Step>, now: int) {
    forall step :: step in steps ==> now <= step.clock.t1 <= step.clock.t2 <= step.clock.t3
  }

  lemma DoPhase(cfg: Breaker.Config, s: Sys, step: Step, id: nat)
    requires Breaker.Sized(cfg, s.keys)
    ensures PhaseOf(Do(cfg, s, step), id) == if id == step.id then Next(PhaseOf(s, id), step.event) else PhaseOf(s, id)
  {
  }

  lemma {:induction false} NoneSucceeds(cfg: Breaker.Config, s: Sys, steps: seq<Step>, key: string)
    requires Breaker.Sized(cfg, s.keys) && Runs(cfg, s, steps) && Spent(cfg, s, key)
    requires forall id :: !MaySucceed(s, key, id)
    ensures !AdmitsOn(steps, key)
    decreases |steps|
  {
    if steps != [] {
      var step, s' := steps[0], Do(cfg, s, steps[0]);
      assert !MaySucceed(s, key, step.id);
      assert step.event != Recorded(key, true);
      SpentStays(cfg, s, step, key);
      forall id
        ensures !MaySucceed(s', key, id)
      {
        DoPhase(cfg, s, step, id);
        assert !MaySucceed(s, key, id);
      }
      hide Do, Enabled, Spent, MaySucceed;
      NoneSucceeds(cfg, s', steps[1..], key);
    }
  }

  /** A time at which no bucket is in the window any more. */
  function Afterwards(ring: seq<SlidingWindow.Bucket>, k: nat, window: int, now: int): (t: int)
    requires k <= |ring|
    ensures t >= now
    ensures forall i :: 0 <= i < k && ring[i].stamp.Some? ==> t - ring[i].stamp.value > window
  {
    if k == 0 then now
    else
      var t := Afterwards(ring, k - 1, window, now);
      if ring[k - 1].stamp.Some? && t - ring[k - 1].stamp.value <= window then ring[k - 1].stamp.value + window + 1
      else t
  }

  lemma {:induction false} NoFailuresLeft(ring: seq<SlidingWindow.Bucket>, now: int, k: nat)
    requires k <= |ring|
    requires forall i :: 0 <= i < |ring| && SlidingWindow.InWindow(ring[i], |ring|, now) ==> ring[i].failure == 0
    ensures SlidingWindow.Sum(ring, now, false, k) == 0
  {
    if k > 0 {
      NoFailuresLeft(ring, now, k - 1);
    }
  }

  /** Late enough, one success has the rate at zero. */
  lemma LateSuccessIsBelow(cfg: Breaker.Config, ring: seq<SlidingWindow.Bucket>, t: int)
    requires ring != [] && cfg.threshold.num > 0 && cfg.threshold.den > 0
    requires forall i :: 0 <= i < |ring| && ring[i].stamp.Some? ==>
               t - ring[i].stamp.value > |ring| * SlidingWindow.SECOND
    ensures Breaker.Less(Breaker.ErrorRate(SlidingWindow.Recorded(ring, t, true), t), cfg.threshold)
  {
    NoFailuresLeft(SlidingWindow.Recorded(ring, t, true), t, |ring|);
  }

  lemma {:induction false} RanCanAdmit(cfg: Breaker.Config, s: Sys, key: string, id: nat, now: int)
    requires Breaker.Sized(cfg, s.keys) && Spent(cfg, s, key) && cfg.threshold.num > 0 && cfg.threshold.den > 0
    requires PhaseOf(s, id) == Ran(key, true)
    ensures CanAdmit(cfg, s, key, now)
  {
    var ring := s.keys[key].ring;
    var t := Afterwards(ring, |ring|, |ring| * SlidingWindow.SECOND, now);
    var c := Breaker.Clock(t, t, t, t);
    LateSuccessIsBelow(cfg, ring, t);
    var other := Unused(s.phases.Keys + {id});
    SuccessLetsTrafficIn(cfg, s, key, id, other, c, c);
    var steps := [Step(id, Recorded(key, true), c), Step(other, Admitted(key), c)];
    assert steps[1] in steps;
    assert Runs(cfg, s, steps) && Later(steps, now);
  }

  lemma {:induction false} HoldingCanAdmit(cfg: Breaker.Config, s: Sys, key: string, id: nat, now: int)
    requires Breaker.Sized(cfg, s.keys) && Spent(cfg, s, key) && cfg.threshold.num > 0 && cfg.threshold.den > 0
    requires PhaseOf(s, id) == Holding(key)
    ensures CanAdmit(cfg, s, key, now)
  {
    var a := Step(id, Executed(key, true), Breaker.Clock(now, now, now, now));
    var s' := Do(cfg, s, a);
    RanCanAdmit(cfg, s', key, id, now);
    var rest :| Runs(cfg, s', rest) && Later(rest, now) && AdmitsOn(rest, key);
    var steps := [a] + rest;
    assert steps[1..] == rest;
    assert Runs(cfg, s, steps);
    var step :| step in rest && step.event == Admitted(key);
    assert step in steps;
    assert Later(steps, now);
  }

  /** With a positive threshold, a spent key can be used again if and only if some thread that was let in
      on it has not failed yet. */
  lemma AdmitsAgainIff(cfg: Breaker.Config, s: Sys, key: string, now: int)
    requires Breaker.Sized(cfg, s.keys) && Spent(cfg, s, key) && cfg.threshold.num > 0 && cfg.threshold.den > 0
    ensures CanAdmit(cfg, s, key, now) <==> exists id :: MaySucceed(s, key, id)
  {
    if id :| MaySucceed(s, key, id) {
      if PhaseOf(s, id) == Holding(key) {
        HoldingCanAdmit(cfg, s, key, id, now);
      } else {
        RanCanAdmit(cfg, s, key, id, now);
      }
    } else {
      forall steps | Runs(cfg, s, steps)
        ensures !AdmitsOn(steps, key)
      {
        NoneSucceeds(cfg, s, steps, key);
      }
    }
  }

  // ---------------------------------------------------------------------------
  // A failover call is such a thread

  /** The events of one thread. */
  function Own(steps: seq<Step>, id: nat): seq<Event> {
    if steps == [] then []
    else (if steps[0].id == id then [steps[0].event] else []) + Own(steps[1..], id)
  }

  lemma {:induction false} FirstEvent(p: Phase, e: Event, rest: seq<Event>)
    ensures PhaseAfter(p, [e] + rest) == PhaseAfter(Next(p, e), rest)
  {
    var all := [e] + rest;
    if rest == [] {
      assert all[..0] == [];
    } else {
      assert all[..|all| - 1] == [e] + rest[..|rest| - 1];
      FirstEvent(p, e, rest[..|rest| - 1]);
    }
  }

  ghost function SysAfter(cfg: Breaker.Config, s: Sys, steps: seq<Step>): Sys
    requires Breaker.Sized(cfg, s.keys)
    decreases |steps|
  {
    if steps == [] then s else SysAfter(cfg, Do(cfg, s, steps[0]), steps[1..])
  }

  /** Where a thread stands depends on its own events alone, so threads that each make failover calls
      are never kept from running by the pattern. */
  lemma {:induction false} PhaseIsOwn(cfg: Breaker.Config, s: Sys, steps: seq<Step>, id: nat)
    requires Breaker.Sized(cfg, s.keys)
    ensures PhaseOf(SysAfter(cfg, s, steps), id) == PhaseAfter(PhaseOf(s, id), Own(steps, id))
    decreases |steps|
  {
    if steps != [] {
      var s1 := Do(cfg, s, steps[0]);
      DoPhase(cfg, s, steps[0], id);
      hide Do;
      PhaseIsOwn(cfg, s1, steps[1..], id);
      if steps[0].id == id {
        FirstEvent(PhaseOf(s, id), steps[0].event, Own(steps[1..], id));
      } else {
        assert Own(steps, id) == Own(steps[1..], id);
      }
    }
  }
}
