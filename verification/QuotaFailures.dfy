// Where the quota ledger's promises fail: exactly when, and a run from an empty history for each.
module QuotaFailures {
  import opened Common
  import opened Quota
  import opened QuotaRuns

  // ---------------------------------------------------------------------------
  // Building runs

  ghost predicate Reaches(s0: Sys, steps: seq<Step>, s: Sys) {
    Runs(s0, steps) && RunTo(s0, steps) == s
  }

  lemma {:induction false} RunMore(s0: Sys, steps: seq<Step>, s: Sys, a: Step)
    requires Reaches(s0, steps, s) && Enabled(s, a)
    ensures Reaches(s0, steps + [a], Do(s, a))
    decreases |steps|
  {
    hide Do, Enabled;
    if steps == [] {
      assert [] + [a] == [a] && [a][1..] == [];
      assert Runs(Do(s, a), []) && RunTo(Do(s, a), []) == Do(s, a);
    } else {
      assert (steps + [a])[1..] == steps[1..] + [a] && (steps + [a])[0] == steps[0];
      RunMore(Do(s0, steps[0]), steps[1..], s, a);
    }
  }

  lemma {:induction false} RunFirst(s: Sys, a: Step, rest: seq<Step>)
    requires Enabled(s, a) && Runs(Do(s, a), rest)
    ensures Runs(s, [a] + rest) && RunTo(s, [a] + rest) == RunTo(Do(s, a), rest)
  {
    hide Do, Enabled;
    assert ([a] + rest)[1..] == rest;
  }

  lemma DoReserve(s: Sys, id: string, p: Path, t: int)
    requires !ReservedIn(s.history, id) && Permitted(s.nodes, Reserved(id, p, t))
    ensures Do(s, Reserve(id, p, t)) ==
            s.(nodes := IncrPath(s.nodes, p, 0, t), storing := s.storing[id := Booking(p, t)],
               history := s.history + [Reserved(id, p, t)])
  {
    hide IncrPath;
  }

  lemma DoDeduct(s: Sys, p: Path, t: int)
    requires Permitted(s.nodes, Deducted(p, t))
    ensures Do(s, Deduct(p, t)) == s.(nodes := IncrPath(s.nodes, p, t, 0), history := s.history + [Deducted(p, t)])
  {
    hide IncrPath;
  }

  lemma DoLoad(s: Sys, call: nat, id: string, now: int)
    requires Enabled(s, LoadRecord(call, id, now)) && Live(s.records, id, now)
    ensures Do(s, LoadRecord(call, id, now)) == s.(loaded := s.loaded[call := Held(id, s.records[id])])
  {
  }

  lemma DoSettle(s: Sys, call: nat, actual: int)
    requires Enabled(s, Settle(call, actual))
    ensures var Held(id, rec) := s.loaded[call];
            var s' := Do(s, Settle(call, actual));
            && s'.nodes == IncrPath(s.nodes, rec.path, actual, -rec.reserved)
            && s'.loaded == s.loaded - {call}
            && s'.history == s.history + [Settled(id, rec.path, rec.reserved, actual)]
  {
    hide IncrPath;
  }

  ghost predicate AllAt(s: Sys, p: Path, c: Counters) {
    forall l: Level :: Get(s.nodes, p.At(l)) == c
  }

  lemma IncrPathAll(s: Sys, s': Sys, p: Path, used: int, reserved: int, c: Counters)
    requires AllAt(s, p, c) && s'.nodes == IncrPath(s.nodes, p, used, reserved)
    ensures AllAt(s', p, c.(used := c.used + used, reserved := c.reserved + reserved))
  {
    forall l: Level
      ensures Get(s'.nodes, p.At(l)) == c.(used := c.used + used, reserved := c.reserved + reserved)
    {
      assert Get(s.nodes, p.At(l)) == c;
      IncrPathAt(s.nodes, p, used, reserved, p.At(l));
    }
  }

  /** Three nodes with the same total and nothing used. */
  function Fresh(p: Path, total: int): Nodes {
    var c := Counters(total, 0, 0);
    map[p.At(User) := c, p.At(App) := c, p.At(Model) := c]
  }

  lemma FreshStarts(p: Path, total: int)
    requires 0 <= total
    ensures InBudget(Fresh(p, total)) && AllAt(Start(Fresh(p, total)), p, Counters(total, 0, 0))
    ensures Reaches(Start(Fresh(p, total)), [], Start(Fresh(p, total)))
  {
  }

  /** A reservation "r" of `t` with its record stored at time 0. */
  function Booked(p: Path, t: int): seq<Step> {
    [Reserve("r", p, t), StoreRecord("r", 0)]
  }

  predicate OneRecord(s: Sys, p: Path, t: int) {
    && s.records == map["r" := Record(p, t, 0, StatusPending, TTL)]
    && s.storing == map[] && s.loaded == map[] && s.settled == map[]
  }

  lemma BookedRuns(p: Path, total: int, t: int) returns (s: Sys)
    requires 0 <= t <= total
    ensures Reaches(Start(Fresh(p, total)), Booked(p, t), s)
    ensures AllAt(s, p, Counters(total, 0, t)) && OneRecord(s, p, t) && s.history == [Reserved("r", p, t)]
  {
    var s0, reserve, store := Start(Fresh(p, total)), Reserve("r", p, t), StoreRecord("r", 0);
    FreshStarts(p, total);
    DoReserve(s0, "r", p, t);
    hide IncrPath, Reaches, Fresh, Permitted;
    RunMore(s0, [], s0, reserve);
    var s1 := Do(s0, reserve);
    IncrPathAll(s0, s1, p, 0, t, Counters(total, 0, 0));
    hide AllAt;
    assert [] + [reserve] == [reserve] && [reserve] + [store] == Booked(p, t);
    assert s1.history == [Reserved("r", p, t)];
    RunMore(s0, [reserve], s1, store);
    s := Do(s1, store);
  }

  /** A call that has the record "r" of `t` in hand settles it. */
  lemma RunsSettle(s0: Sys, steps: seq<Step>, s: Sys, call: nat, p: Path, t: int, actual: int, c: Counters)
    returns (s2: Sys)
    requires Reaches(s0, steps, s) && AllAt(s, p, c)
    requires call in s.loaded && s.loaded[call] == Held("r", Record(p, t, 0, StatusPending, TTL))
    ensures Reaches(s0, steps + [Settle(call, actual)], s2)
    ensures AllAt(s2, p, c.(used := c.used + actual, reserved := c.reserved - t))
    ensures s2.history == s.history + [Settled("r", p, t, actual)] && s2.loaded == s.loaded - {call}
  {
    DoSettle(s, call, actual);
    hide Do, Reaches, IncrPath, AllAt;
    RunMore(s0, steps, s, Settle(call, actual));
    s2 := Do(s, Settle(call, actual));
    IncrPathAll(s, s2, p, actual, -t, c);
  }

  /** A call with the number 0 finds the one record and settles it. */
  lemma RunsToSettle(s0: Sys, steps: seq<Step>, s: Sys, p: Path, t: int, actual: int, c: Counters) returns (s2: Sys)
    requires Reaches(s0, steps, s) && OneRecord(s, p, t) && AllAt(s, p, c)
    ensures Reaches(s0, steps + [LoadRecord(0, "r", 0)] + [Settle(0, actual)], s2)
    ensures AllAt(s2, p, c.(used := c.used + actual, reserved := c.reserved - t))
    ensures s2.history == s.history + [Settled("r", p, t, actual)]
  {
    DoLoad(s, 0, "r", 0);
    hide Do, Reaches, AllAt;
    RunMore(s0, steps, s, LoadRecord(0, "r", 0));
    var s1 := Do(s, LoadRecord(0, "r", 0));
    SameNodes(s, s1, p, c);
    s2 := RunsSettle(s0, steps + [LoadRecord(0, "r", 0)], s1, 0, p, t, actual, c);
  }

  lemma SameNodes(s: Sys, s': Sys, p: Path, c: Counters)
    requires AllAt(s, p, c) && s'.nodes == s.nodes
    ensures AllAt(s', p, c)
  {
  }

  // ---------------------------------------------------------------------------
  // Settling twice

  /** Two calls find the record pending, and both settle it. */
  function SettledTwice(p: Path, t: int): seq<Step> {
    Booked(p, t) + [LoadRecord(0, "r", 0)] + [LoadRecord(1, "r", 0)] + [Settle(0, 0)] + [Settle(1, 0)]
  }

  lemma BothLoad(s0: Sys, steps: seq<Step>, s: Sys, p: Path, t: int) returns (s2: Sys)
    requires Reaches(s0, steps, s) && OneRecord(s, p, t)
    ensures Reaches(s0, steps + [LoadRecord(0, "r", 0)] + [LoadRecord(1, "r", 0)], s2)
    ensures s2.nodes == s.nodes && s2.history == s.history
    ensures var held := Held("r", Record(p, t, 0, StatusPending, TTL));
            s2.loaded == map[0 := held, 1 := held]
  {
    DoLoad(s, 0, "r", 0);
    hide Do, Reaches;
    RunMore(s0, steps, s, LoadRecord(0, "r", 0));
    var s1 := Do(s, LoadRecord(0, "r", 0));
    DoLoad(s1, 1, "r", 0);
    RunMore(s0, steps + [LoadRecord(0, "r", 0)], s1, LoadRecord(1, "r", 0));
    s2 := Do(s1, LoadRecord(1, "r", 0));
  }

  lemma BothSettle(s0: Sys, steps: seq<Step>, s: Sys, p: Path, t: int, c: Counters) returns (s2: Sys)
    requires Reaches(s0, steps, s) && AllAt(s, p, c)
    requires var held := Held("r", Record(p, t, 0, StatusPending, TTL)); s.loaded == map[0 := held, 1 := held]
    ensures Reaches(s0, steps + [Settle(0, 0)] + [Settle(1, 0)], s2)
    ensures AllAt(s2, p, c.(reserved := c.reserved - t - t))
    ensures s2.history == s.history + [Settled("r", p, t, 0)] + [Settled("r", p, t, 0)]
  {
    hide Reaches, AllAt;
    var s1 := RunsSettle(s0, steps, s, 0, p, t, 0, c);
    s2 := RunsSettle(s0, steps + [Settle(0, 0)], s1, 1, p, t, 0, c.(reserved := c.reserved - t));
  }

  /** Two settlements of one reservation, by two calls that found it pending, release it twice: the
      reserved tokens are then no longer those of the unsettled reservations, of which there are none. */
  lemma SettledTwiceGoesNegative(p: Path, t: int) returns (s: Sys)
    requires t > 0
    ensures InBudget(Fresh(p, t)) && Reaches(Start(Fresh(p, t)), SettledTwice(p, t), s)
    ensures AllAt(s, p, Counters(t, 0, -t)) && NoNegativeAmounts(s.history)
    ensures forall l: Level :: !NothingAgain(s.history, p.At(l))
  {
    var s0 := Start(Fresh(p, t));
    FreshStarts(p, t);
    var s1 := BookedRuns(p, t, t);
    hide Reaches, InBudget, Fresh, AllAt, NothingAgain, NoNegativeAmounts;
    var s2 := BothLoad(s0, Booked(p, t), s1, p, t);
    SameNodes(s1, s2, p, Counters(t, 0, t));
    var steps := Booked(p, t) + [LoadRecord(0, "r", 0)] + [LoadRecord(1, "r", 0)];
    s := BothSettle(s0, steps, s2, p, t, Counters(t, 0, t));
    AgainIsSomething(p, t);
    assert s.history == [Reserved("r", p, t), Settled("r", p, t, 0), Settled("r", p, t, 0)];
  }

  lemma AgainIsSomething(p: Path, t: int)
    requires t > 0
    ensures var h := [Reserved("r", p, t), Settled("r", p, t, 0), Settled("r", p, t, 0)];
            NoNegativeAmounts(h) && forall l: Level :: !NothingAgain(h, p.At(l))
  {
    var again := Settled("r", p, t, 0);
    var h := [Reserved("r", p, t), again, again];
    assert h[..2][1] == again && again in h[..2];
    assert h[2].id in SettledIds(h[..2]);
  }

  // ---------------------------------------------------------------------------
  // Overdrawing

  lemma DeductBooked(p: Path, total: int) returns (s: Sys)
    requires 0 <= total
    ensures Reaches(Start(Fresh(p, total)), Booked(p, total) + [Deduct(p, total)], s)
    ensures AllAt(s, p, Counters(total, total, total)) && OneRecord(s, p, total)
    ensures s.history == [Reserved("r", p, total), Deducted(p, total)]
  {
    var s0 := Start(Fresh(p, total));
    var s1 := BookedRuns(p, total, total);
    DoDeduct(s1, p, total);
    hide Do, Reaches, IncrPath, Fresh, AllAt;
    RunMore(s0, Booked(p, total), s1, Deduct(p, total));
    s := Do(s1, Deduct(p, total));
    IncrPathAll(s1, s, p, total, 0, Counters(total, 0, total));
  }

  /** The factor two is real: everything is reserved, and deducted again, for a deduction does not see
      what is reserved. */
  lemma FactorTwoIsReached(p: Path, total: int) returns (s: Sys)
    requires 0 <= total
    ensures InBudget(Fresh(p, total)) && Reaches(Start(Fresh(p, total)), Booked(p, total) + [Deduct(p, total)], s)
    ensures AllAt(s, p, Counters(total, total, total)) && NoNegativeAmounts(s.history) && NoSettlements(s.history)
  {
    FreshStarts(p, total);
    s := DeductBooked(p, total);
  }

  function Overdraw(p: Path, total: int, extra: int): seq<Step> {
    Booked(p, total) + [Deduct(p, total)] + [LoadRecord(0, "r", 0)] + [Settle(0, total + extra)]
  }

  lemma {:induction false} ExcessOfLast(p: Path, t: int, actual: int, between: seq<Entry>)
    requires t <= actual && |between| <= 1 && (forall e :: e in between ==> e.Deducted?)
    ensures var h := [Reserved("r", p, t)] + between + [Settled("r", p, t, actual)];
            forall l: Level :: Excess(h, p.At(l)) == actual - t
  {
    var first := [Reserved("r", p, t)];
    var init := first + between;
    var h := init + [Settled("r", p, t, actual)];
    assert h[..|init|] == init && first[..0] == [] && (between == [] ==> init == first);
    assert between != [] ==> init[..1] == first && between[0] in between;
    forall l: Level
      ensures Excess(h, p.At(l)) == actual - t
    {
      assert Excess(first, p.At(l)) == 0;
      assert Excess(init, p.At(l)) == 0;
    }
  }

  /** Use itself reaches the whole bound, for every excess of a settlement over its reservation: twice
      the total, and the excess. */
  lemma BoundIsReached(p: Path, total: int, extra: nat) returns (s: Sys)
    requires 0 <= total
    ensures InBudget(Fresh(p, total)) && Reaches(Start(Fresh(p, total)), Overdraw(p, total, extra), s)
    ensures AllAt(s, p, Counters(total, 2 * total + extra, 0)) && NoNegativeAmounts(s.history)
    ensures forall l: Level :: Excess(s.history, p.At(l)) == extra
  {
    FreshStarts(p, total);
    var s1 := DeductBooked(p, total);
    hide Reaches, InBudget, Fresh, AllAt, Excess;
    s := RunsToSettle(Start(Fresh(p, total)), Booked(p, total) + [Deduct(p, total)], s1, p, total, total + extra,
                      Counters(total, total, total));
    ExcessOfLast(p, total, total + extra, [Deducted(p, total)]);
    assert [Reserved("r", p, total)] + [Deducted(p, total)] == s1.history;
  }

  /** Without deductions use reaches the total and the excess. */
  lemma BoundWithoutDeductionsIsReached(p: Path, total: int, extra: nat) returns (s: Sys)
    requires 0 <= total
    ensures InBudget(Fresh(p, total))
    ensures Reaches(Start(Fresh(p, total)), Booked(p, total) + [LoadRecord(0, "r", 0)] + [Settle(0, total + extra)], s)
    ensures AllAt(s, p, Counters(total, total + extra, 0)) && NoNegativeAmounts(s.history) && NoDeductions(s.history)
    ensures forall l: Level :: Excess(s.history, p.At(l)) == extra
  {
    FreshStarts(p, total);
    var s1 := BookedRuns(p, total, total);
    hide Reaches, InBudget, Fresh, AllAt, Excess;
    s := RunsToSettle(Start(Fresh(p, total)), Booked(p, total), s1, p, total, total + extra, Counters(total, 0, total));
    ExcessOfLast(p, total, total + extra, []);
    assert [Reserved("r", p, total)] + [] == s1.history;
  }

  /** What is neither used nor reserved at a node. */
  function Free(s: Sys, n: Node): int {
    var c := Get(s.nodes, n);
    c.total - c.used - c.reserved
  }

  /** As far as the node is concerned, the step deducts no more than is free, and settles no more beyond
      the reservation than that. */
  predicate Careful(s: Sys, step: Step, n: Node)
    requires Enabled(s, step)
  {
    match step
    case Deduct(p, t) => p.Names(n) && DeductScript(s.nodes, p, t).1.Ok? ==> t <= Free(s, n)
    case Settle(call, actual) =>
      var r := s.loaded[call].record;
      r.path.Names(n) ==> actual - r.reserved <= Free(s, n)
    case _ => true
  }

  ghost predicate AllCareful(s: Sys, steps: seq<Step>, n: Node)
    requires Runs(s, steps)
    decreases |steps|
  {
    steps == [] || (Careful(s, steps[0], n) && AllCareful(Do(s, steps[0]), steps[1..], n))
  }

  /** The node is within its total at every point of the run. */
  ghost predicate AlwaysWithin(s: Sys, steps: seq<Step>, n: Node)
    requires Runs(s, steps)
    decreases |steps|
  {
    Within(Get(s.nodes, n)) && (steps == [] || AlwaysWithin(Do(s, steps[0]), steps[1..], n))
  }

  lemma ApplyKeepsWithinIff(m: Nodes, e: Entry, n: Node)
    requires Within(Get(m, n)) && Permitted(m, e)
    ensures !e.path.Names(n) ==> Get(Applied(m, e), n) == Get(m, n)
    ensures e.path.Names(n) ==>
              var free := Get(m, n).total - Get(m, n).used - Get(m, n).reserved;
              Within(Get(Applied(m, e), n)) <==>
              match e
              case Reserved(_, _, _) => true
              case Deducted(_, t) => t <= free
              case Settled(_, _, t, actual) => actual - t <= free
  {
    EntryAt(m, e, n);
    hide Applied, Permitted;
    if e.path.Names(n) {
      KeepsWithinIff(m, e, n);
    }
  }

  lemma StepKeepsWithinIff(s: Sys, step: Step, n: Node)
    requires Enabled(s, step) && Within(Get(s.nodes, n))
    ensures Within(Get(Do(s, step).nodes, n)) <==> Careful(s, step, n)
  {
    hide Applied, Permitted, IncrPath;
    match step
    case Deduct(p, t) =>
      ScriptsPermit(s.nodes, p, t, "");
      hide DeductScript, Within;
      if DeductScript(s.nodes, p, t).1.Ok? {
        ApplyKeepsWithinIff(s.nodes, Deducted(p, t), n);
      }
    case Reserve(id, p, t) =>
      ScriptsPermit(s.nodes, p, t, id);
      hide ReserveScript, Within;
      if ReserveScript(s.nodes, p, t).1.Ok? {
        ApplyKeepsWithinIff(s.nodes, Reserved(id, p, t), n);
      }
    case Settle(call, actual) =>
      SettleKeepsWithinIff(s, call, actual, n);
    case _ =>
  }

  lemma SettleApplies(s: Sys, call: nat, actual: int)
    requires Enabled(s, Settle(call, actual))
    ensures var Held(id, r) := s.loaded[call];
            Do(s, Settle(call, actual)).nodes == Applied(s.nodes, Settled(id, r.path, r.reserved, actual))
  {
    hide IncrPath;
  }

  lemma SettleKeepsWithinIff(s: Sys, call: nat, actual: int, n: Node)
    requires Enabled(s, Settle(call, actual)) && Within(Get(s.nodes, n))
    ensures Within(Get(Do(s, Settle(call, actual)).nodes, n)) <==> Careful(s, Settle(call, actual), n)
  {
    var Held(id, r) := s.loaded[call];
    SettleApplies(s, call, actual);
    hide Do, Applied, Within;
    ApplyKeepsWithinIff(s.nodes, Settled(id, r.path, r.reserved, actual), n);
  }

  /** From a node within its total, a run keeps it there throughout if and only if all its steps are
      careful. */
  lemma {:induction false} StaysWithinIff(s: Sys, steps: seq<Step>, n: Node)
    requires Runs(s, steps) && Within(Get(s.nodes, n))
    ensures AlwaysWithin(s, steps, n) <==> AllCareful(s, steps, n)
    decreases |steps|
  {
    if steps != [] {
      StepKeepsWithinIff(s, steps[0], n);
      hide Do, Enabled, Careful, Within;
      if Within(Get(Do(s, steps[0]).nodes, n)) {
        StaysWithinIff(Do(s, steps[0]), steps[1..], n);
      }
    }
  }

  // ---------------------------------------------------------------------------
  // A reservation whose record is gone

  /** From `now` on nobody can find the record of `id` any more: it is missing or expired, and no call
      has it in hand. */
  ghost predicate Stranded(s: Sys, id: string, now: int) {
    && ReservedIn(s.history, id)
    && id !in s.storing
    && !Live(s.records, id, now)
    && (forall c :: c in s.loaded ==> s.loaded[c].id != id)
    && (forall c :: c in s.settled ==> s.settled[c].id != id)
  }

  ghost predicate From(steps: seq<Step>, now: int) {
    forall step :: step in steps ==>
      (step.StoreRecord? || step.LoadRecord? || step.MarkSettled? ==> step.now >= now)
  }

  function Settlements(h: seq<Entry>, id: string): nat {
    if h == [] then 0
    else Settlements(h[..|h| - 1], id) + if h[|h| - 1].Settled? && h[|h| - 1].id == id then 1 else 0
  }

  lemma {:induction false} StrandedGrows(s: Sys, e: Entry, id: string, now: int)
    requires Stranded(s, id, now)
    ensures Stranded(s.(history := s.history + [e]), id, now)
    ensures Settlements(s.history + [e], id) == Settlements(s.history, id) + if e.Settled? && e.id == id then 1 else 0
  {
    assert forall f :: f in s.history ==> f in s.history + [e];
    assert (s.history + [e])[..|s.history|] == s.history;
  }

  lemma {:induction false} DoStaysStranded(s: Sys, step: Step, id: string, now: int)
    requires Consistent(s) && Enabled(s, step) && Stranded(s, id, now)
    requires step.StoreRecord? || step.LoadRecord? || step.MarkSettled? ==> step.now >= now
    ensures Stranded(Do(s, step), id, now)
    ensures Settlements(Do(s, step).history, id) == Settlements(s.history, id)
  {
    hide SoundHistory, IncrPath, FirstShort, Settlements;
    match step
    case Deduct(p, t) =>
      StrandedGrows(s, Deducted(p, t), id, now);
    case Reserve(other, p, t) =>
      StrandedGrows(s, Reserved(other, p, t), id, now);
    case StoreRecord(_, _) =>
    case LoadRecord(call, _, _) =>
    case Settle(call, actual) =>
      var Held(held, rec) := s.loaded[call];
      StrandedGrows(s, Entry.Settled(held, rec.path, rec.reserved, actual), id, now);
    case MarkSettled(call, _) =>
  }

  /** Once stranded, a reservation is never settled: its tokens stay reserved for good. */
  lemma {:induction false} StrandedForGood(s: Sys, steps: seq<Step>, id: string, now: int)
    requires Consistent(s) && Runs(s, steps) && Stranded(s, id, now) && From(steps, now)
    ensures Settlements(RunTo(s, steps).history, id) == Settlements(s.history, id)
    decreases |steps|
  {
    if steps != [] {
      assert steps[0] in steps;
      DoConsistent(s, steps[0]);
      DoStaysStranded(s, steps[0], id, now);
      var s' := Do(s, steps[0]);
      assert RunTo(s, steps) == RunTo(s', steps[1..]);
      hide Do, Enabled, Consistent;
      StrandedForGood(s', steps[1..], id, now);
    }
  }

  /** Some way to go on, with no clock reading before `now`, settles the reservation once more. */
  ghost predicate CanSettle(s: Sys, id: string, now: int) {
    exists steps ::
      Runs(s, steps) && From(steps, now) && Settlements(RunTo(s, steps).history, id) > Settlements(s.history, id)
  }

  lemma FromFirst(a: Step, rest: seq<Step>, now: int)
    requires From([a], now) && From(rest, now)
    ensures From([a] + rest, now)
  {
    assert a in [a];
  }

  /** What can be settled after a step can be settled before it. */
  lemma {:induction false} CanSettleBefore(s: Sys, a: Step, id: string, now: int)
    requires Enabled(s, a) && From([a], now)
    requires Do(s, a).history == s.history && CanSettle(Do(s, a), id, now)
    ensures CanSettle(s, id, now)
  {
    var s' := Do(s, a);
    hide Do, Enabled, Runs, RunTo, Settlements;
    var rest :| Runs(s', rest) && From(rest, now)
      && Settlements(RunTo(s', rest).history, id) > Settlements(s'.history, id);
    RunFirst(s, a, rest);
    FromFirst(a, rest, now);
    hide From;
    assert Runs(s, [a] + rest);
  }

  lemma {:induction false} LoadedCanSettle(s: Sys, call: nat, id: string, now: int)
    requires call in s.loaded && s.loaded[call].id == id
    ensures CanSettle(s, id, now)
  {
    var a := Settle(call, 0);
    DoSettle(s, call, 0);
    hide Do;
    assert Reaches(s, [], s);
    RunMore(s, [], s, a);
    assert [] + [a] == [a];
    var h := RunTo(s, [a]).history;
    assert h[..|h| - 1] == s.history;
    assert From([a], now);
  }

  lemma LiveCanSettle(s: Sys, id: string, now: int)
    requires Live(s.records, id, now)
    ensures CanSettle(s, id, now)
  {
    var call := Unused(s.loaded.Keys + s.settled.Keys);
    var a := LoadRecord(call, id, now);
    hide CanSettle;
    DoLoad(s, call, id, now);
    LoadedCanSettle(Do(s, a), call, id, now);
    CanSettleBefore(s, a, id, now);
  }

  lemma StoringCanSettle(s: Sys, id: string, now: int)
    requires id in s.storing
    ensures CanSettle(s, id, now)
  {
    var a := StoreRecord(id, now);
    assert Live(Do(s, a).records, id, now);
    hide CanSettle;
    LiveCanSettle(Do(s, a), id, now);
    CanSettleBefore(s, a, id, now);
  }

  lemma SettledCanSettle(s: Sys, call: nat, id: string, now: int)
    requires call in s.settled && s.settled[call].id == id
    ensures CanSettle(s, id, now)
  {
    var a := MarkSettled(call, now);
    assert Live(Do(s, a).records, id, now);
    hide CanSettle;
    LiveCanSettle(Do(s, a), id, now);
    CanSettleBefore(s, a, id, now);
  }

  /** A reservation can still be settled, by some way to go on, if and only if it is not stranded. */
  lemma {:induction false} SettlesUnlessStranded(s: Sys, id: string, now: int)
    requires Consistent(s) && ReservedIn(s.history, id)
    ensures CanSettle(s, id, now) <==> !Stranded(s, id, now)
  {
    hide Consistent, Do, Enabled;
    if Stranded(s, id, now) {
      forall steps | Runs(s, steps) && From(steps, now)
        ensures Settlements(RunTo(s, steps).history, id) == Settlements(s.history, id)
      {
        StrandedForGood(s, steps, id, now);
      }
    } else if id in s.storing {
      StoringCanSettle(s, id, now);
    } else if Live(s.records, id, now) {
      LiveCanSettle(s, id, now);
    } else if c :| c in s.loaded && s.loaded[c].id == id {
      LoadedCanSettle(s, c, id, now);
    } else {
      var c :| c in s.settled && s.settled[c].id == id;
      SettledCanSettle(s, c, id, now);
    }
  }

  /** A reservation that is left alone for ten minutes is stranded, with its tokens reserved. */
  lemma AbandonedIsStranded(p: Path, total: int, t: int) returns (s: Sys)
    requires 0 <= t <= total
    ensures Reaches(Start(Fresh(p, total)), Booked(p, t), s)
    ensures Stranded(s, "r", TTL) && AllAt(s, p, Counters(total, 0, t))
  {
    s := BookedRuns(p, total, t);
    hide Reaches;
    assert Reserved("r", p, t) in [Reserved("r", p, t)];
  }
}
