// What the circuit breaker guarantees over whole runs of admissions and reports.
module BreakerRuns {
  import opened Common
  import opened SlidingWindow
  import opened Breaker

  datatype Kind = Ask | Success | Failure

  datatype Op = Op(kind: Kind, c: Clock)

  /** One operation on one key; no window yet is None. */
  function Step(cfg: Config, s: Option<KeyState>, op: Op): (Option<KeyState>, bool)
    requires s.Some? ==> |s.value.ring| == TotalBuckets(cfg)
  {
    var k := if s.Some? then s.value else NewWindow(cfg, op.c.made);
    match op.kind
    case Ask => var (k', admitted) := Allow(cfg, k, op.c); (Some(k'), admitted)
    case Success => (if s.Some? then Some(Succeed(cfg, k, op.c)) else None, false)
    case Failure => (Some(Fail(cfg, k, op.c)), false)
  }

  function After(cfg: Config, ops: seq<Op>): (s: Option<KeyState>)
    ensures s.Some? ==> |s.value.ring| == TotalBuckets(cfg)
  {
    if ops == [] then None
    else Step(cfg, After(cfg, ops[..|ops| - 1]), ops[|ops| - 1]).0
  }

  predicate Admits(cfg: Config, ops: seq<Op>, i: nat)
    requires i < |ops|
  {
    Step(cfg, After(cfg, ops[..i]), ops[i]).1
  }

  predicate Is(s: Option<KeyState>, state: State) {
    s.Some? && s.value.state == state
  }

  /** Readings under the lock never go back, within an operation or from one to a later one. */
  ghost predicate Clocked(ops: seq<Op>) {
    && (forall op :: op in ops ==> 0 <= op.c.t1 <= op.c.t2 <= op.c.t3)
    && (forall i, j :: 0 <= i < j < |ops| ==> ops[i].c.t3 <= ops[j].c.t1)
  }

  lemma {:induction false} AfterNext(cfg: Config, ops: seq<Op>, i: nat)
    requires i < |ops|
    ensures After(cfg, ops[..i + 1]) == Step(cfg, After(cfg, ops[..i]), ops[i]).0
  {
    assert ops[..i + 1][..i] == ops[..i];
  }

  // ---------------------------------------------------------------------------
  // Runs over all keys are runs of each key by itself

  datatype KeyedOp = KeyedOp(key: string, op: Op)

  function StepKeys(cfg: Config, m: Keys, k: KeyedOp): (Keys, bool)
    requires Sized(cfg, m)
  {
    match k.op.kind
    case Ask => AllowKey(cfg, m, k.key, k.op.c)
    case Success => (SucceedKey(cfg, m, k.key, k.op.c), false)
    case Failure => (FailKey(cfg, m, k.key, k.op.c), false)
  }

  ghost function AfterKeys(cfg: Config, ops: seq<KeyedOp>): (m: Keys)
    ensures Sized(cfg, m)
  {
    if ops == [] then map[]
    else StepKeys(cfg, AfterKeys(cfg, ops[..|ops| - 1]), ops[|ops| - 1]).0
  }

  function OfKey(ops: seq<KeyedOp>, key: string): seq<Op> {
    if ops == [] then []
    else
      var k := ops[|ops| - 1];
      OfKey(ops[..|ops| - 1], key) + if k.key == key then [k.op] else []
  }

  function Lookup(m: Keys, key: string): Option<KeyState> {
    if key in m then Some(m[key]) else None
  }

  lemma StepOfKey(cfg: Config, m: Keys, k: KeyedOp, key: string)
    requires Sized(cfg, m)
    ensures k.key != key ==> Lookup(StepKeys(cfg, m, k).0, key) == Lookup(m, key)
    ensures k.key == key ==>
              (Lookup(StepKeys(cfg, m, k).0, key), StepKeys(cfg, m, k).1) == Step(cfg, Lookup(m, key), k.op)
  {
    match k.op.kind
    case Ask =>
    case Success =>
    case Failure =>
  }

  /** Keys do not disturb each other: a key's state and admissions are those of its own operations. */
  lemma {:induction false} KeysAreIndependent(cfg: Config, ops: seq<KeyedOp>, key: string)
    ensures Lookup(AfterKeys(cfg, ops), key) == After(cfg, OfKey(ops, key))
    ensures ops != [] && ops[|ops| - 1].key == key ==>
              var own := OfKey(ops, key);
              && own != []
              && StepKeys(cfg, AfterKeys(cfg, ops[..|ops| - 1]), ops[|ops| - 1]).1 == Admits(cfg, own, |own| - 1)
  {
    if ops != [] {
      var init, k := ops[..|ops| - 1], ops[|ops| - 1];
      hide Step, StepKeys;
      KeysAreIndependent(cfg, init, key);
      StepOfKey(cfg, AfterKeys(cfg, init), k, key);
      var own, before := OfKey(ops, key), OfKey(init, key);
      if k.key == key {
        assert own == before + [k.op];
        assert own[..|own| - 1] == before;
      } else {
        assert own == before;
      }
    }
  }

  // ---------------------------------------------------------------------------
  // Opening

  /** The requests reported for the key so far. */
  function Log(cfg: Config, ops: seq<Op>): seq<Event> {
    if ops == [] then []
    else
      var init := ops[..|ops| - 1];
      Log(cfg, init) + Logged(After(cfg, init), ops[|ops| - 1])
  }

  function Logged(s: Option<KeyState>, op: Op): seq<Event> {
    match op.kind
    case Ask => []
    case Success => if s.Some? then [Event(op.c.t1, true)] else []
    case Failure => [Event(op.c.t1, false)]
  }

  /** The ring of a key, if it has a window, is what recording its log makes of an empty one. */
  ghost predicate Holds(s: Option<KeyState>, log: seq<Event>) {
    match s
    case None => log == []
    case Some(k) => |k.ring| > 0 && k.ring == RingAfter(|k.ring|, log)
  }

  lemma RingOf(cfg: Config, s: Option<KeyState>, op: Op)
    requires s.Some? ==> |s.value.ring| == TotalBuckets(cfg)
    ensures var ring := if s.Some? then s.value.ring else seq(TotalBuckets(cfg), _ => EMPTY);
            match Step(cfg, s, op).0
            case None => op.kind == Success && s.None?
            case Some(k) =>
              !(op.kind == Success && s.None?) &&
              k.ring == if op.kind == Ask then ring else Recorded(ring, op.c.t1, op.kind == Success)
  {
  }

  lemma {:induction false} RingAfterNext(n: nat, log: seq<Event>, e: Event)
    requires n > 0
    ensures RingAfter(n, []) == seq(n, _ => EMPTY)
    ensures RingAfter(n, log + [e]) == Recorded(RingAfter(n, log), e.at, e.ok)
  {
    assert (log + [e])[..|log|] == log;
  }

  lemma StepHolds(cfg: Config, s: Option<KeyState>, op: Op, log: seq<Event>)
    requires s.Some? ==> |s.value.ring| == TotalBuckets(cfg)
    requires Holds(s, log) && Until(log, op.c.t1)
    ensures Holds(Step(cfg, s, op).0, log + Logged(s, op))
    ensures Until(log + Logged(s, op), op.c.t1)
  {
    hide Step, Recorded, RingAfter;
    RingOf(cfg, s, op);
    RingAfterNext(TotalBuckets(cfg), log, Event(op.c.t1, op.kind == Success));
    if op.kind == Ask || (op.kind == Success && s.None?) {
      assert log + Logged(s, op) == log;
    }
  }

  lemma {:induction false} RingHoldsLog(cfg: Config, ops: seq<Op>, now: int)
    requires Clocked(ops) && 0 <= now && (forall op :: op in ops ==> op.c.t3 <= now)
    ensures Until(Log(cfg, ops), now) && Holds(After(cfg, ops), Log(cfg, ops))
    ensures After(cfg, ops).Some? ==> Represents(After(cfg, ops).value.ring, Log(cfg, ops))
  {
    if ops != [] {
      var init, op := ops[..|ops| - 1], ops[|ops| - 1];
      assert forall i :: 0 <= i < |init| ==> ops[i].c.t3 <= op.c.t1;
      RingHoldsLog(cfg, init, op.c.t1);
      StepHolds(cfg, After(cfg, init), op, Log(cfg, init));
      RingRepresents(TotalBuckets(cfg), Log(cfg, ops));
    }
  }

  lemma OpenedBy(cfg: Config, s: Option<KeyState>, op: Op)
    requires s.Some? ==> |s.value.ring| == TotalBuckets(cfg)
    ensures var s' := Step(cfg, s, op).0;
            && (op.kind == Failure ==> s'.Some?)
            && ((!Is(s, Open) && Is(s', Open)) <==>
                (op.kind == Failure && !Is(s, Open) && !Is(s, HalfOpen)
                 && Less(cfg.threshold, ErrorRate(s'.value.ring, op.c.t2))))
  {
  }

  /** `bad` failures and `good` successes are above, or below, the fraction `th`; none at all are a
      rate of zero. */
  predicate Above(th: Ratio, good: nat, bad: nat) {
    if good + bad == 0 then th.num < 0 else bad * th.den > th.num * (good + bad)
  }

  predicate Below(th: Ratio, good: nat, bad: nat) {
    if good + bad == 0 then th.num > 0 else bad * th.den < th.num * (good + bad)
  }

  lemma RateIsShare(th: Ratio, ring: seq<Bucket>, now: int)
    requires th.den > 0
    ensures var good, bad := Total(ring, now, true), Total(ring, now, false);
            && (Less(th, ErrorRate(ring, now)) <==> Above(th, good, bad))
            && (Less(ErrorRate(ring, now), th) <==> Below(th, good, bad))
  {
  }

  /** The visible successes, or failures, of the log. */
  ghost function VisibleCount(cfg: Config, log: seq<Event>, now: int, ok: bool): nat {
    Count(log, VisibleIs(log, TotalBuckets(cfg), now, ok))
  }

  /** Failures are above the threshold among the visible events of `log`. */
  ghost predicate FailingTooOften(cfg: Config, log: seq<Event>, now: int) {
    Above(cfg.threshold, VisibleCount(cfg, log, now, true), VisibleCount(cfg, log, now, false))
  }

  /** Failures are below the threshold among the visible events of `log`. */
  ghost predicate FailingSeldom(cfg: Config, log: seq<Event>, now: int) {
    Below(cfg.threshold, VisibleCount(cfg, log, now, true), VisibleCount(cfg, log, now, false))
  }

  lemma {:induction false} RateIsVisible(cfg: Config, log: seq<Event>, now: int)
    requires Until(log, now) && cfg.threshold.den > 0
    ensures var rate := ErrorRate(RingAfter(TotalBuckets(cfg), log), now);
            && (Less(cfg.threshold, rate) <==> FailingTooOften(cfg, log, now))
            && (Less(rate, cfg.threshold) <==> FailingSeldom(cfg, log, now))
  {
    var n := TotalBuckets(cfg);
    RingRefinesLog(n, log, now, false);
    RingRefinesLog(n, log, now, true);
    hide Total, RingAfter, Until, Less, ErrorRate, VisibleIs, Above, Below, Count;
    RateIsShare(cfg.threshold, RingAfter(n, log), now);
  }

  /** The last operation of a run, seen from the log before it. */
  lemma {:induction false} LastHolds(cfg: Config, ops: seq<Op>)
    requires Clocked(ops) && ops != []
    ensures var before, op := After(cfg, ops[..|ops| - 1]), ops[|ops| - 1];
            && After(cfg, ops) == Step(cfg, before, op).0
            && Until(Log(cfg, ops), op.c.t2)
            && (After(cfg, ops).Some? ==> After(cfg, ops).value.ring == RingAfter(TotalBuckets(cfg), Log(cfg, ops)))
  {
    var init, op := ops[..|ops| - 1], ops[|ops| - 1];
    var s := After(cfg, init);
    assert forall i :: 0 <= i < |init| ==> ops[i].c.t3 <= op.c.t1;
    RingHoldsLog(cfg, init, op.c.t1);
    hide Step, RingAfter;
    StepHolds(cfg, s, op, Log(cfg, init));
  }

  /** In any run the breaker opens exactly when it was closed, a failure is reported and, among the visible
      events of the key's log, the share of failures is above the threshold. */
  lemma {:induction false} OpensAboveThreshold(cfg: Config, ops: seq<Op>)
    requires Clocked(ops) && ops != [] && cfg.threshold.den > 0
    ensures var before, op := After(cfg, ops[..|ops| - 1]), ops[|ops| - 1];
            (!Is(before, Open) && Is(After(cfg, ops), Open)) <==>
            (op.kind == Failure && !Is(before, Open) && !Is(before, HalfOpen)
             && FailingTooOften(cfg, Log(cfg, ops), op.c.t2))
  {
    var op := ops[|ops| - 1];
    LastHolds(cfg, ops);
    hide Step, After, Log, RingAfter, FailingTooOften, FailingSeldom, Less, ErrorRate;
    OpenedBy(cfg, After(cfg, ops[..|ops| - 1]), op);
    RateIsVisible(cfg, Log(cfg, ops), op.c.t2);
  }

  // ---------------------------------------------------------------------------
  // Open: no admission until the timeout has passed

  ghost predicate OpensAt(cfg: Config, ops: seq<Op>, i: nat)
    requires i < |ops|
  {
    !Is(After(cfg, ops[..i]), Open) && Is(After(cfg, ops[..i + 1]), Open)
  }

  lemma OpenStep(cfg: Config, s: Option<KeyState>, op: Op)
    requires s.Some? ==> |s.value.ring| == TotalBuckets(cfg)
    ensures !Is(s, Open) && Is(Step(cfg, s, op).0, Open) ==> Step(cfg, s, op).0.value.lastChange == op.c.t3
    ensures Is(s, Open) && op.c.t1 <= s.value.lastChange + cfg.halfOpenTimeout ==>
              && Is(Step(cfg, s, op).0, Open)
              && Step(cfg, s, op).0.value.lastChange == s.value.lastChange
              && !Step(cfg, s, op).1
  {
    match op.kind
    case Ask =>
    case Success =>
    case Failure =>
  }

  lemma {:induction false} OpenUntilTimeout(cfg: Config, ops: seq<Op>, i: nat, j: nat)
    requires i < j <= |ops| && OpensAt(cfg, ops, i)
    requires forall m :: i < m < j ==> ops[m].c.t1 <= ops[i].c.t3 + cfg.halfOpenTimeout
    ensures Is(After(cfg, ops[..j]), Open) && After(cfg, ops[..j]).value.lastChange == ops[i].c.t3
  {
    hide Step;
    AfterNext(cfg, ops, j - 1);
    OpenStep(cfg, After(cfg, ops[..j - 1]), ops[j - 1]);
    hide After;
    if j > i + 1 {
      OpenUntilTimeout(cfg, ops, i, j - 1);
    }
  }

  /** After the breaker opens, whatever is reported meanwhile, the next request that is admitted is
      asked for more than the timeout later. */
  lemma QuietPeriod(cfg: Config, ops: seq<Op>, i: nat, j: nat)
    requires Clocked(ops) && i < j < |ops| && OpensAt(cfg, ops, i) && Admits(cfg, ops, j)
    ensures ops[j].c.t1 > ops[i].c.t3 + cfg.halfOpenTimeout
  {
    if m :| i < m < j && ops[m].c.t1 > ops[i].c.t3 + cfg.halfOpenTimeout {
      assert ops[m].c.t3 <= ops[j].c.t1 && ops[m] in ops;
    } else {
      OpenUntilTimeout(cfg, ops, i, j);
      OpenStep(cfg, After(cfg, ops[..j]), ops[j]);
    }
  }

  // ---------------------------------------------------------------------------
  // Half-open: the probe budget, and the way out

  function Admissions(cfg: Config, ops: seq<Op>, i: nat, j: nat): nat
    requires i <= j <= |ops|
  {
    if i == j then 0 else Admissions(cfg, ops, i, j - 1) + if Admits(cfg, ops, j - 1) then 1 else 0
  }

  function Max(a: int, b: int): int {
    if a < b then b else a
  }

  lemma ProbeStep(cfg: Config, s: Option<KeyState>, op: Op)
    requires s.Some? ==> |s.value.ring| == TotalBuckets(cfg)
    requires Is(Step(cfg, s, op).0, HalfOpen)
    ensures var (s', admitted) := Step(cfg, s, op);
            if Is(s, HalfOpen)
            then s'.value.probes == s.value.probes + (if admitted then 1 else 0)
                 && s'.value.probes <= Max(s.value.probes, cfg.maxRequests)
            else admitted && s'.value.probes == 0
  {
    match op.kind
    case Ask =>
    case Success =>
    case Failure =>
  }

  /** A half-open episode that began with operation `i` has admitted, up to operation `j`, one request
      more than it has counted, and so at most one more than the configured number. */
  lemma {:induction false} ProbeBudget(cfg: Config, ops: seq<Op>, i: nat, j: nat)
    requires i < j <= |ops| && !Is(After(cfg, ops[..i]), HalfOpen)
    requires forall m :: i < m <= j ==> Is(After(cfg, ops[..m]), HalfOpen)
    ensures Is(After(cfg, ops[..j]), HalfOpen)
    ensures Admissions(cfg, ops, i, j) == After(cfg, ops[..j]).value.probes + 1
    ensures 1 <= Admissions(cfg, ops, i, j) <= Max(0, cfg.maxRequests) + 1
  {
    hide Step;
    AfterNext(cfg, ops, j - 1);
    ProbeStep(cfg, After(cfg, ops[..j - 1]), ops[j - 1]);
    if j > i + 1 {
      ProbeBudget(cfg, ops, i, j - 1);
    } else {
      assert Admissions(cfg, ops, i, i) == 0;
    }
  }

  /** The breaker is open before operation `j`, and has been since operation `i` opened it. */
  ghost predicate OpenSince(cfg: Config, ops: seq<Op>, i: nat, j: nat)
    requires j <= |ops|
  {
    i < j && OpensAt(cfg, ops, i) && forall m :: i < m <= j ==> Is(After(cfg, ops[..m]), Open)
  }

  /** It is half-open before operation `j`, in the episode that began with operation `i`. */
  ghost predicate HalfOpenSince(cfg: Config, ops: seq<Op>, i: nat, j: nat)
    requires j <= |ops|
  {
    i < j && !Is(After(cfg, ops[..i]), HalfOpen) && forall m :: i < m <= j ==> Is(After(cfg, ops[..m]), HalfOpen)
  }

  lemma {:induction false} SinceWhen(cfg: Config, ops: seq<Op>, j: nat, state: State) returns (i: nat)
    requires j <= |ops| && state != Closed && Is(After(cfg, ops[..j]), state)
    ensures i < j && !Is(After(cfg, ops[..i]), state) && forall m :: i < m <= j ==> Is(After(cfg, ops[..m]), state)
  {
    assert ops[..0] == [] && After(cfg, []) == None;
    hide After;
    i := j - 1;
    if Is(After(cfg, ops[..j - 1]), state) {
      i := SinceWhen(cfg, ops, j - 1, state);
    }
  }

  lemma StillOpen(cfg: Config, s: Option<KeyState>, op: Op)
    requires s.Some? ==> |s.value.ring| == TotalBuckets(cfg)
    requires Is(s, Open) && Is(Step(cfg, s, op).0, Open)
    ensures Step(cfg, s, op).0.value.lastChange == s.value.lastChange
  {
    match op.kind
    case Ask =>
    case Success =>
    case Failure =>
  }

  lemma {:induction false} OpenedThen(cfg: Config, ops: seq<Op>, i: nat, j: nat)
    requires j <= |ops| && OpenSince(cfg, ops, i, j)
    ensures Is(After(cfg, ops[..j]), Open) && After(cfg, ops[..j]).value.lastChange == ops[i].c.t3
  {
    hide Step;
    AfterNext(cfg, ops, j - 1);
    OpenStep(cfg, After(cfg, ops[..j - 1]), ops[j - 1]);
    hide After;
    if j > i + 1 {
      OpenedThen(cfg, ops, i, j - 1);
      StillOpen(cfg, After(cfg, ops[..j - 1]), ops[j - 1]);
    }
  }

  lemma AskStep(cfg: Config, s: Option<KeyState>, op: Op)
    requires (s.Some? ==> |s.value.ring| == TotalBuckets(cfg)) && op.kind == Ask
    ensures !Step(cfg, s, op).1 <==>
              || (Is(s, Open) && op.c.t1 <= s.value.lastChange + cfg.halfOpenTimeout)
              || (Is(s, HalfOpen) && s.value.probes >= cfg.maxRequests)
  {
  }

  /** Within the timeout of the opening. */
  ghost predicate TooEarly(cfg: Config, ops: seq<Op>, i: nat, j: nat)
    requires j < |ops|
  {
    OpenSince(cfg, ops, i, j) && ops[j].c.t1 <= ops[i].c.t3 + cfg.halfOpenTimeout
  }

  /** The half-open episode has had the request that began it and all its probes. */
  ghost predicate NoProbeLeft(cfg: Config, ops: seq<Op>, i: nat, j: nat)
    requires j < |ops|
  {
    HalfOpenSince(cfg, ops, i, j) && Admissions(cfg, ops, i, j) == Max(0, cfg.maxRequests) + 1
  }

  lemma {:induction false} SinceIsOne(cfg: Config, ops: seq<Op>, i: nat, j: nat)
    requires j < |ops|
    ensures OpenSince(cfg, ops, i, j) ==>
              (TooEarly(cfg, ops, i, j) <==>
               ops[j].c.t1 <= After(cfg, ops[..j]).value.lastChange + cfg.halfOpenTimeout)
    ensures HalfOpenSince(cfg, ops, i, j) ==>
              (NoProbeLeft(cfg, ops, i, j) <==> After(cfg, ops[..j]).value.probes >= cfg.maxRequests)
  {
    hide After, Step;
    if OpenSince(cfg, ops, i, j) {
      OpenedThen(cfg, ops, i, j);
    }
    if HalfOpenSince(cfg, ops, i, j) {
      ProbeBudget(cfg, ops, i, j);
    }
  }

  /** In any run, a request is refused if and only if the breaker is open and no more than the timeout has
      passed since it opened, or it is half-open and the episode has had the configured number of probes
      besides the request that began it. So closed and unseen keys always admit. */
  lemma {:induction false} RefusedIff(cfg: Config, ops: seq<Op>, j: nat)
    requires j < |ops| && ops[j].kind == Ask
    ensures !Admits(cfg, ops, j) <==>
              (exists i :: TooEarly(cfg, ops, i, j)) || (exists i :: NoProbeLeft(cfg, ops, i, j))
  {
    AskStep(cfg, After(cfg, ops[..j]), ops[j]);
    hide After, Step;
    if Is(After(cfg, ops[..j]), Open) {
      var i := SinceWhen(cfg, ops, j, Open);
      assert OpenSince(cfg, ops, i, j);
      SinceIsOne(cfg, ops, i, j);
    }
    if Is(After(cfg, ops[..j]), HalfOpen) {
      var i := SinceWhen(cfg, ops, j, HalfOpen);
      SinceIsOne(cfg, ops, i, j);
    }
    if i :| TooEarly(cfg, ops, i, j) {
      SinceIsOne(cfg, ops, i, j);
    }
    if i :| NoProbeLeft(cfg, ops, i, j) {
      SinceIsOne(cfg, ops, i, j);
    }
  }

  lemma HalfOpenStep(cfg: Config, s: Option<KeyState>, op: Op)
    requires s.Some? ==> |s.value.ring| == TotalBuckets(cfg)
    ensures !Is(s, HalfOpen) && Is(Step(cfg, s, op).0, HalfOpen) <==>
              Is(s, Open) && op.kind == Ask && op.c.t1 > s.value.lastChange + cfg.halfOpenTimeout
    ensures Is(s, Open) ==> Is(Step(cfg, s, op).0, Open) || Is(Step(cfg, s, op).0, HalfOpen)
  {
    match op.kind
    case Ask =>
    case Success =>
    case Failure =>
  }

  /** In any run the breaker turns half-open exactly when it is asked, open, more than the timeout after it
      opened; and an open breaker does nothing else but stay open. */
  lemma {:induction false} TurnsHalfOpenIff(cfg: Config, ops: seq<Op>, j: nat)
    requires j < |ops|
    ensures !Is(After(cfg, ops[..j]), HalfOpen) && Is(After(cfg, ops[..j + 1]), HalfOpen) <==>
              ops[j].kind == Ask && exists i :: OpenSince(cfg, ops, i, j) && !TooEarly(cfg, ops, i, j)
    ensures Is(After(cfg, ops[..j]), Open) ==>
              Is(After(cfg, ops[..j + 1]), Open) || Is(After(cfg, ops[..j + 1]), HalfOpen)
  {
    AfterNext(cfg, ops, j);
    HalfOpenStep(cfg, After(cfg, ops[..j]), ops[j]);
    hide After, Step;
    if Is(After(cfg, ops[..j]), Open) {
      var i := SinceWhen(cfg, ops, j, Open);
      assert OpenSince(cfg, ops, i, j);
      SinceIsOne(cfg, ops, i, j);
    }
    if i :| OpenSince(cfg, ops, i, j) && !TooEarly(cfg, ops, i, j) {
      SinceIsOne(cfg, ops, i, j);
    }
  }

  lemma ExitStep(cfg: Config, s: Option<KeyState>, op: Op)
    requires s.Some? ==> |s.value.ring| == TotalBuckets(cfg)
    requires Is(s, HalfOpen)
    ensures var s' := Step(cfg, s, op).0;
            && s'.Some?
            && (!Is(s', HalfOpen) <==> op.kind == Success && Less(ErrorRate(s'.value.ring, op.c.t2), cfg.threshold))
            && (Is(s', HalfOpen) || Is(s', Closed))
  {
  }

  /** The one way out of half-open, in any run: a success after which failures are below the threshold
      among the visible events of the log; and it closes. */
  lemma {:induction false} HalfOpenExit(cfg: Config, ops: seq<Op>)
    requires Clocked(ops) && ops != [] && Is(After(cfg, ops[..|ops| - 1]), HalfOpen)
    requires cfg.threshold.den > 0
    ensures var op := ops[|ops| - 1];
            !Is(After(cfg, ops), HalfOpen) <==> op.kind == Success && FailingSeldom(cfg, Log(cfg, ops), op.c.t2)
    ensures Is(After(cfg, ops), HalfOpen) || Is(After(cfg, ops), Closed)
  {
    var op := ops[|ops| - 1];
    LastHolds(cfg, ops);
    hide Step, After, Log, RingAfter, FailingTooOften, FailingSeldom, Less, ErrorRate;
    ExitStep(cfg, After(cfg, ops[..|ops| - 1]), op);
    RateIsVisible(cfg, Log(cfg, ops), op.c.t2);
  }

  /** The shipped settings: a window of ten seconds, a half, thirty seconds, ten probes. */
  const SHIPPED := Config(10 * SECOND, Ratio(1, 2), 30 * SECOND, 10)

  function At(kind: Kind, second: nat): Op {
    var t := second * SECOND;
    Op(kind, Clock(t, t, t, t))
  }

  /** A failure opens the breaker; a probe is let in 31 seconds later; a call from before reports its
      failure at 32; the probe reports its success at 33. */
  function LateFailure(): seq<Op> {
    [At(Failure, 0), At(Ask, 31), At(Failure, 32), At(Success, 33)]
  }

  lemma {:induction false} RunSteps(cfg: Config, ops: seq<Op>, op: Op)
    ensures After(cfg, ops + [op]) == Step(cfg, After(cfg, ops), op).0
    ensures Log(cfg, ops + [op]) == Log(cfg, ops) + Logged(After(cfg, ops), op)
  {
    assert (ops + [op])[..|ops|] == ops;
  }

  lemma FailureShows()
    ensures VisibleCount(SHIPPED, [Event(0, false)], 0, false) == 1
    ensures VisibleCount(SHIPPED, [Event(0, false)], 0, true) == 0
  {
    var log := [Event(0, false)];
    assert log[..0] == [];
    assert VisibleIs(log, 10, 0, false)(log[0]) && !VisibleIs(log, 10, 0, true)(log[0]);
  }

  /** A first report, of a failure, and what it leaves. */
  lemma {:induction false} FirstFailure(cfg: Config, op: Op)
    requires op.kind == Failure && Clocked([op]) && cfg.threshold.den > 0
    requires FailingTooOften(cfg, [Event(op.c.t1, false)], op.c.t2)
    ensures Is(After(cfg, [op]), Open) && After(cfg, [op]).value.lastChange == op.c.t3
    ensures Log(cfg, [op]) == [Event(op.c.t1, false)]
  {
    assert [] + [op] == [op] && [op][..0] == [] && [] + [Event(op.c.t1, false)] == [Event(op.c.t1, false)];
    assert After(cfg, []) == None && Log(cfg, []) == [];
    hide Step, After, Log, FailingTooOften, Clocked;
    RunSteps(cfg, [], op);
    OpensAboveThreshold(cfg, [op]);
    OpenStep(cfg, None, op);
  }

  lemma LateFailureOpens()
    ensures var s := After(SHIPPED, [At(Failure, 0)]);
            Is(s, Open) && s.value.lastChange == 0
    ensures Log(SHIPPED, [At(Failure, 0)]) == [Event(0, false)]
  {
    FailureShows();
    hide After, Log, VisibleCount;
    FirstFailure(SHIPPED, At(Failure, 0));
  }

  lemma AskedAfterTimeout(cfg: Config, s: Option<KeyState>, op: Op)
    requires Is(s, Open) && op.kind == Ask && op.c.t1 - s.value.lastChange > cfg.halfOpenTimeout
    requires |s.value.ring| == TotalBuckets(cfg)
    ensures Is(Step(cfg, s, op).0, HalfOpen) && Step(cfg, s, op).1
  {
  }

  /** In the last ten seconds there are then one success and one failure. */
  lemma LateFailureCounts()
    ensures var log := [Event(0, false), Event(32 * SECOND, false), Event(33 * SECOND, true)];
            VisibleCount(SHIPPED, log, 33 * SECOND, true) == 1 && VisibleCount(SHIPPED, log, 33 * SECOND, false) == 1
  {
    var a, b, c := Event(0, false), Event(32 * SECOND, false), Event(33 * SECOND, true);
    var log, now := [a, b, c], 33 * SECOND;
    assert log[..2] == [a, b] && [a, b][..1] == [a] && [a][..0] == [];
    var good, bad := VisibleIs(log, 10, now, true), VisibleIs(log, 10, now, false);
    assert good(c) && !good(b) && !good(a) && !bad(c) && bad(b) && !bad(a);
    assert Count([a], good) == 0 && Count([a], bad) == 0;
    assert Count([a, b], good) == 0 && Count([a, b], bad) == 1;
  }

  lemma LateFailureAsks()
    ensures var ops := [At(Failure, 0), At(Ask, 31)];
            && Is(After(SHIPPED, ops), HalfOpen) && Log(SHIPPED, ops) == [Event(0, false)]
            && Step(SHIPPED, After(SHIPPED, [At(Failure, 0)]), At(Ask, 31)).1
  {
    LateFailureOpens();
    hide Step, After, Log;
    RunSteps(SHIPPED, [At(Failure, 0)], At(Ask, 31));
    AskedAfterTimeout(SHIPPED, After(SHIPPED, [At(Failure, 0)]), At(Ask, 31));
    assert [At(Failure, 0)] + [At(Ask, 31)] == [At(Failure, 0), At(Ask, 31)];
    assert [Event(0, false)] + [] == [Event(0, false)];
  }

  lemma LateFailureLeads()
    ensures var ops := LateFailure();
            && Admits(SHIPPED, ops, 1) && Is(After(SHIPPED, ops[..3]), HalfOpen)
            && Log(SHIPPED, ops) == [Event(0, false), Event(32 * SECOND, false), Event(33 * SECOND, true)]
  {
    var ops := LateFailure();
    assert ops[..1] == [ops[0]] && ops[..2] == [ops[0], ops[1]] && ops[..3] == ops[..2] + [ops[2]];
    assert ops == ops[..3] + [ops[3]];
    LateFailureAsks();
    hide Step, After, Log;
    RunSteps(SHIPPED, ops[..2], ops[2]);
    ExitStep(SHIPPED, After(SHIPPED, ops[..2]), ops[2]);
    RunSteps(SHIPPED, ops[..3], ops[3]);
  }

  /** So with the shipped settings a probe that succeeds may leave the breaker half-open. */
  lemma SuccessfulProbeMayNotClose()
    ensures var ops := LateFailure();
            && Clocked(ops) && Admits(SHIPPED, ops, 1)
            && Is(After(SHIPPED, ops[..3]), HalfOpen) && Is(After(SHIPPED, ops), HalfOpen)
  {
    LateFailureLeads();
    LateFailureCounts();
    hide Step, After, Log, VisibleCount, Admits;
    HalfOpenExit(SHIPPED, LateFailure());
  }
}
