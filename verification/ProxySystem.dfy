// All streams of a proxy together, with the connection manager and its sweeper.
module ProxySystem {
  import opened Common
  import opened Sse
  import opened Metering
  import Proxy
  import opened Connections

  type Stream = Proxy.Stream

  datatype Sys = Sys(streams: map<nat, Stream>, conns: Table<nat>)

  /** One atomic step of some stream, or a pass of the sweeper. */
  datatype Step =
    | Start(i: nat, session: string, decode: Decoder, upstream: Bytes, now: int)
    | Local(i: nat, action: Proxy.Action)
    | Touch(i: nat, now: int)
    | CloseBody(i: nat)
    | Sweep(now: int)

  /** The caller is about to have the manager close its connection. */
  predicate AboutToClose(s: Stream) {
    s.caller.ClosingBody? || s.caller.CopyDone?
  }

  predicate Enabled(s: Sys, step: Step) {
    match step
    case Start(i, _, _, _, _) => i !in s.streams
    case Local(i, action) => i in s.streams && Proxy.Enabled(s.streams[i], action)
    case Touch(i, _) => i in s.streams && s.streams[i].reader.Touching?
    case CloseBody(i) => i in s.streams && AboutToClose(s.streams[i])
    case Sweep(_) => true
  }

  /** No two calls at work share a session. */
  predicate Exclusive(s: Sys, step: Step) {
    step.Start? ==> forall j :: j in s.streams && s.streams[j].session == step.session ==> s.streams[j].caller.Returned?
  }

  function Closed(s: Stream): Stream {
    s.(closes := s.closes + 1)
  }

  function AfterClose(s: Stream): Stream {
    s.(caller := if s.caller.CopyDone? then Proxy.BodyDone(s.caller.err) else Proxy.Draining)
  }

  /** The manager's part of a close, before the caller moves on. */
  function CloseRegistered(s: Sys, session: string): Sys {
    Sys(map j | j in s.streams ::
          if session in s.conns && s.conns[session].owner == j then Closed(s.streams[j]) else s.streams[j],
        s.conns - {session})
  }

  function Do(s: Sys, step: Step): Sys
    requires Enabled(s, step)
  {
    match step
    case Start(i, session, decode, upstream, now) =>
      Sys(s.streams[i := Proxy.Fresh(session, decode, upstream)], s.conns[session := Entry(i, now)])
    case Local(i, action) => s.(streams := s.streams[i := Proxy.Do(s.streams[i], action)])
    case Touch(i, now) =>
      Sys(s.streams[i := s.streams[i].(reader := Proxy.Scanning)], Touched(s.conns, s.streams[i].session, now))
    case CloseBody(i) =>
      var session := s.streams[i].session;
      var closed := CloseRegistered(s, session);
      closed.(streams := closed.streams[i := AfterClose(closed.streams[i])])
    case Sweep(now) =>
      Sys(map j | j in s.streams :: if SweptBy(s, j, now) then Closed(s.streams[j]) else s.streams[j],
          Kept(s.conns, now))
  }

  /** The sweep closes the body of `j`, which is registered under its session. */
  predicate SweptBy(s: Sys, j: nat, now: int)
    requires j in s.streams
  {
    Registered(s, j) && Stale(s.conns, s.streams[j].session, now)
  }

  predicate Registered(s: Sys, i: nat)
    requires i in s.streams
  {
    var session := s.streams[i].session;
    session in s.conns && s.conns[session].owner == i
  }

  predicate BeforeClose(s: Stream) {
    s.caller.Selecting? || s.caller.ClosingWriter? || s.caller.ClosingReader? || AboutToClose(s)
  }

  /** A stream's body is open while it is registered, and has been closed once since. */
  ghost predicate ClosedOnce(s: Sys, i: nat)
    requires i in s.streams
  {
    && s.streams[i].closes == (if Registered(s, i) then 0 else 1)
    && (Registered(s, i) ==> BeforeClose(s.streams[i]))
  }

  /** The table names streams by their own sessions, and says whose body is open. */
  ghost predicate Tabled(s: Sys) {
    && (forall i :: i in s.streams ==> ClosedOnce(s, i))
    && (forall k :: k in s.conns ==> s.conns[k].owner in s.streams && s.streams[s.conns[k].owner].session == k)
    && (forall i, j :: i in s.streams && j in s.streams && i != j && s.streams[i].session == s.streams[j].session ==>
          s.streams[i].caller.Returned? || s.streams[j].caller.Returned?)
  }

  ghost predicate AllGood(s: Sys) {
    forall i :: i in s.streams ==> Proxy.Good(s.streams[i])
  }

  ghost predicate Good(s: Sys) {
    AllGood(s) && Tabled(s)
  }

  /** Whether a stream is good does not depend on how often its body has been closed. */
  lemma MeteredAlike(s: Stream, s': Stream)
    requires Proxy.ResultIsMetered(s) && s'.caller == s.caller && s'.decode == s.decode
    requires s'.scanned == s.scanned && s'.delivered == s.delivered
    ensures Proxy.ResultIsMetered(s')
  {
    if s.caller.Returned? {
      var k :| Proxy.MeteredTo(s, k);
      assert Proxy.MeteredTo(s', k);
    }
  }

  lemma ClosesKeepLines(s: Stream)
    requires Proxy.Good(s)
    ensures var s' := Closed(s);
            && Proxy.ScansInOrder(s') && Proxy.StopsAtDone(s') && Proxy.PipeCarriesOutput(s')
            && Proxy.ClientGetsTaken(s') && Proxy.CountsScanned(s')
  {
    hide Proxy.ResultIsMetered, Proxy.VerdictsAreTrue, Proxy.CausesAreTrue, Output, ScanLines, MeterLines;
  }

  lemma ClosesKeepVerdicts(s: Stream)
    requires Proxy.VerdictsAreTrue(s) && Proxy.CausesAreTrue(s)
    ensures Proxy.VerdictsAreTrue(Closed(s)) && Proxy.CausesAreTrue(Closed(s))
  {
  }

  lemma ClosesDoNotMatter(s: Stream)
    requires Proxy.Good(s)
    ensures Proxy.Good(Closed(s))
  {
    MeteredAlike(s, Closed(s));
    ClosesKeepLines(s);
    ClosesKeepVerdicts(s);
    hide Proxy.ResultIsMetered, Proxy.VerdictsAreTrue, Proxy.CausesAreTrue, Proxy.ScansInOrder, Proxy.StopsAtDone,
         Proxy.PipeCarriesOutput, Proxy.ClientGetsTaken, Proxy.CountsScanned;
  }

  lemma AfterCloseIsGood(s: Stream)
    requires Proxy.Good(s) && AboutToClose(s)
    ensures Proxy.Good(AfterClose(s))
  {
    hide Output, ScanLines, MeterLines;
  }

  lemma TouchedIsGood(s: Stream)
    requires Proxy.Good(s) && s.reader.Touching?
    ensures Proxy.Good(s.(reader := Proxy.Scanning))
  {
    MeteredAlike(s, s.(reader := Proxy.Scanning));
    hide Proxy.ResultIsMetered, Output, ScanLines, MeterLines;
  }

  lemma LocalKeeps(s: Stream, a: Proxy.Action)
    requires Proxy.Enabled(s, a)
    ensures var s' := Proxy.Do(s, a);
            && s'.session == s.session && s'.closes == s.closes
            && (BeforeClose(s') <==> BeforeClose(s))
            && (s.caller.Returned? ==> s'.caller.Returned?)
  {
  }

  lemma DoAllGood(s: Sys, step: Step)
    requires AllGood(s) && Enabled(s, step)
    ensures AllGood(Do(s, step))
  {
    hide Proxy.Good, Proxy.Do, Proxy.Enabled, Proxy.Fresh;
    if step.CloseBody? || step.Sweep? {
      forall j | j in s.streams
        ensures Proxy.Good(Closed(s.streams[j]))
      {
        ClosesDoNotMatter(s.streams[j]);
      }
    }
    match step
    case Start(i, session, decode, upstream, now) => Proxy.FreshIsGood(session, decode, upstream);
    case Local(i, action) => Proxy.DoIsGood(s.streams[i], action);
    case Touch(i, now) => TouchedIsGood(s.streams[i]);
    case CloseBody(i) =>
      AfterCloseIsGood(s.streams[i]);
      AfterCloseIsGood(Closed(s.streams[i]));
    case Sweep(now) =>
  }

  lemma LocalTabled(s: Sys, i: nat, s': Stream)
    requires Tabled(s) && i in s.streams
    requires s'.session == s.streams[i].session && s'.closes == s.streams[i].closes
    requires Registered(s, i) ==> BeforeClose(s')
    requires s.streams[i].caller.Returned? ==> s'.caller.Returned?
    ensures Tabled(s.(streams := s.streams[i := s']))
  {
    forall j | j in s.streams
      ensures ClosedOnce(s.(streams := s.streams[i := s']), j)
    {
      assert ClosedOnce(s, j);
    }
  }

  lemma StartTabled(s: Sys, step: Step)
    requires Tabled(s) && Enabled(s, step) && Exclusive(s, step) && step.Start?
    ensures Tabled(Do(s, step))
  {
    var s' := Do(s, step);
    forall j | j in s'.streams
      ensures ClosedOnce(s', j)
    {
      assert j != step.i ==> ClosedOnce(s, j);
    }
  }

  lemma CloseRegisteredTabled(s: Sys, session: string)
    requires Tabled(s)
    ensures Tabled(CloseRegistered(s, session))
  {
    var s' := CloseRegistered(s, session);
    forall j | j in s.streams
      ensures ClosedOnce(s', j)
    {
      assert ClosedOnce(s, j);
    }
  }

  lemma CloseTabled(s: Sys, i: nat)
    requires Tabled(s) && Enabled(s, CloseBody(i))
    ensures Tabled(Do(s, CloseBody(i)))
  {
    var s' := CloseRegistered(s, s.streams[i].session);
    CloseRegisteredTabled(s, s.streams[i].session);
    hide Tabled;
    LocalTabled(s', i, AfterClose(s'.streams[i]));
  }

  lemma SweepTabled(s: Sys, now: int)
    requires Tabled(s)
    ensures Tabled(Do(s, Sweep(now)))
  {
    var s' := Do(s, Sweep(now));
    forall j | j in s.streams
      ensures ClosedOnce(s', j)
    {
      assert ClosedOnce(s, j);
    }
  }

  lemma DoIsGood(s: Sys, step: Step)
    requires Good(s) && Enabled(s, step) && Exclusive(s, step)
    ensures Good(Do(s, step))
  {
    DoAllGood(s, step);
    hide AllGood, Tabled, Proxy.Do, Proxy.Enabled;
    match step
    case Start(i, session, decode, upstream, now) => StartTabled(s, step);
    case Local(i, action) =>
      LocalKeeps(s.streams[i], action);
      LocalTabled(s, i, Proxy.Do(s.streams[i], action));
    case Touch(i, now) =>
      var touched := Sys(s.streams, Touched(s.conns, s.streams[i].session, now));
      assert Tabled(touched) by { TouchTabled(s, i, now); }
      LocalTabled(touched, i, s.streams[i].(reader := Proxy.Scanning));
    case CloseBody(i) => CloseTabled(s, i);
    case Sweep(now) => SweepTabled(s, now);
  }

  lemma TouchTabled(s: Sys, i: nat, now: int)
    requires Tabled(s) && i in s.streams
    ensures Tabled(Sys(s.streams, Touched(s.conns, s.streams[i].session, now)))
  {
    var s' := Sys(s.streams, Touched(s.conns, s.streams[i].session, now));
    forall j | j in s.streams
      ensures ClosedOnce(s', j)
    {
      assert ClosedOnce(s, j);
    }
  }

  // ---------------------------------------------------------------------------
  // Runs

  const EMPTY: Sys := Sys(map[], map[])

  ghost predicate Runs(s: Sys, steps: seq<Step>)
    decreases |steps|
  {
    steps == [] || (Enabled(s, steps[0]) && Runs(Do(s, steps[0]), steps[1..]))
  }

  ghost function RunTo(s: Sys, steps: seq<Step>): Sys
    requires Runs(s, steps)
    decreases |steps|
  {
    if steps == [] then s else RunTo(Do(s, steps[0]), steps[1..])
  }

  /** All along the run no two calls at work share a session. */
  ghost predicate Exclusively(s: Sys, steps: seq<Step>)
    requires Runs(s, steps)
    decreases |steps|
  {
    steps == [] || (Exclusive(s, steps[0]) && Exclusively(Do(s, steps[0]), steps[1..]))
  }

  lemma {:induction false} RunIsGood(s: Sys, steps: seq<Step>)
    requires Good(s) && Runs(s, steps) && Exclusively(s, steps)
    ensures Good(RunTo(s, steps))
    decreases |steps|
  {
    if steps != [] {
      DoIsGood(s, steps[0]);
      RunIsGood(Do(s, steps[0]), steps[1..]);
    }
  }

  // ---------------------------------------------------------------------------
  // Streams whose entry is taken

  /** Every entry of the table is under the session of its stream. */
  ghost predicate Owned(s: Sys) {
    forall k :: k in s.conns ==> s.conns[k].owner in s.streams && s.streams[s.conns[k].owner].session == k
  }

  lemma DoOwned(s: Sys, step: Step)
    requires Owned(s) && Enabled(s, step)
    ensures Owned(Do(s, step))
  {
    if step.Local? {
      hide Proxy.Do, Proxy.Enabled;
      LocalKeeps(s.streams[step.i], step.action);
    }
  }

  /** Another call takes the session of `i` while `i` is registered under it. */
  predicate Takes(s: Sys, step: Step, i: nat) {
    step.Start? && i in s.streams && Registered(s, i) && step.session == s.streams[i].session
  }

  ghost predicate Displaced(s: Sys, steps: seq<Step>, i: nat)
    requires Runs(s, steps)
    decreases |steps|
  {
    steps != [] && (Takes(s, steps[0], i) || Displaced(Do(s, steps[0]), steps[1..], i))
  }

  /** A stream is open before its close while it is registered; afterwards it has been closed once, or never
      if its entry was taken. */
  ghost predicate ClosedUnless(s: Sys, i: nat, displaced: bool) {
    i in s.streams ==>
      if Registered(s, i) then s.streams[i].closes == 0 && BeforeClose(s.streams[i]) && !displaced
      else s.streams[i].closes == if displaced then 0 else 1
  }

  lemma LocalClosedUnless(s: Sys, step: Step, i: nat, displaced: bool)
    requires step.Local? && Enabled(s, step) && ClosedUnless(s, i, displaced)
    ensures ClosedUnless(Do(s, step), i, displaced)
  {
    hide Proxy.Do, Proxy.Enabled;
    LocalKeeps(s.streams[step.i], step.action);
  }

  lemma DoClosedUnless(s: Sys, step: Step, i: nat, displaced: bool)
    requires Owned(s) && Enabled(s, step) && ClosedUnless(s, i, displaced)
    requires i !in s.streams ==> !displaced
    ensures ClosedUnless(Do(s, step), i, displaced || Takes(s, step, i))
  {
    if step.Local? {
      LocalClosedUnless(s, step, i, displaced);
    }
  }

  lemma {:induction false} RunClosedUnless(s: Sys, steps: seq<Step>, i: nat, displaced: bool)
    requires Runs(s, steps) && Owned(s) && ClosedUnless(s, i, displaced) && (i !in s.streams ==> !displaced)
    ensures ClosedUnless(RunTo(s, steps), i, displaced || Displaced(s, steps, i))
    decreases |steps|
  {
    if steps != [] {
      DoOwned(s, steps[0]);
      DoClosedUnless(s, steps[0], i, displaced);
      if i in s.streams {
        StreamsStay(s, steps[0], i);
      }
      hide Do, Enabled, Owned, ClosedUnless, Takes;
      RunClosedUnless(Do(s, steps[0]), steps[1..], i, displaced || Takes(s, steps[0], i));
    }
  }

  lemma StreamsStay(s: Sys, step: Step, i: nat)
    requires Enabled(s, step) && i in s.streams
    ensures i in Do(s, step).streams
  {
  }

  lemma {:induction false} RunAllGood(s: Sys, steps: seq<Step>)
    requires Runs(s, steps) && AllGood(s)
    ensures AllGood(RunTo(s, steps))
    decreases |steps|
  {
    if steps != [] {
      DoAllGood(s, steps[0]);
      hide Do, Enabled, AllGood;
      RunAllGood(Do(s, steps[0]), steps[1..]);
    }
  }

  /** In every run of any number of streams, whatever interleaving and whoever shares a session: a client
      holds a prefix of the output for what its upstream delivered; a call that returns without error has
      delivered everything and reports the final counts; unless a body broke uncleanly, both are about the
      whole upstream. A call that returns, with an error or without, has metered all that its client holds;
      an error is returned only for its cause. No body is closed twice, and a returned call's body has been
      closed if and only if no other call took its session before. */
  lemma {:induction false} EveryStreamIsSafe(steps: seq<Step>, i: nat)
    requires Runs(EMPTY, steps) && i in RunTo(EMPTY, steps).streams
    ensures var s := RunTo(EMPTY, steps).streams[i];
            && s.delivered <= Output(ScanLines(Proxy.Received(s)))
            && (Proxy.Clean(s) ==> s.delivered <= Output(ScanLines(s.upstream)))
            && (s.caller.Returned? && s.caller.err.None? ==>
                 Proxy.GotAll(s, Proxy.Received(s)) && (Proxy.Clean(s) ==> Proxy.GotAll(s, s.upstream)))
            && (s.caller.Returned? ==> exists k :: Proxy.Covers(s, k))
            && (s.caller.Returned? && s.caller.err.Some? ==> Proxy.HasCause(s, s.caller.err.value))
            && s.closes <= 1
            && (s.caller.Returned? ==> (s.closes == 1 <==> !Displaced(EMPTY, steps, i)))
  {
    hide Proxy.Good, Runs, RunTo, Displaced, Output, ScanLines, MeterLines, Proxy.Received, Proxy.GotAll, Proxy.Clean,
         Proxy.Covers, Proxy.HasCause;
    RunAllGood(EMPTY, steps);
    RunClosedUnless(EMPTY, steps, i, false);
    var t := RunTo(EMPTY, steps).streams[i];
    Proxy.ClientHasPrefix(t);
    if t.caller.Returned? {
      var k := Proxy.CountsCoverDelivered(t);
      if t.caller.err.None? {
        Proxy.NoErrorMeansAll(t);
      } else {
        Proxy.ErrorHasCause(t);
      }
    }
  }

  /** When no two calls at work share a session, every returned call's body has been closed. */
  lemma {:induction false} ExclusiveIsClosedOnce(steps: seq<Step>, i: nat)
    requires Runs(EMPTY, steps) && Exclusively(EMPTY, steps) && i in RunTo(EMPTY, steps).streams
    ensures RunTo(EMPTY, steps).streams[i].caller.Returned? ==>
              RunTo(EMPTY, steps).streams[i].closes == 1 && !Displaced(EMPTY, steps, i)
  {
    hide Proxy.Good, Runs, RunTo, Exclusively, Displaced;
    RunIsGood(EMPTY, steps);
    RunClosedUnless(EMPTY, steps, i, false);
    assert ClosedOnce(RunTo(EMPTY, steps), i);
  }

  // ---------------------------------------------------------------------------
  // After cancellation

  /** A step of stream `i` itself, other than its cancellation. */
  predicate IsOf(step: Step, i: nat) {
    match step
    case Local(j, action) => j == i && action != Proxy.Cancel
    case Touch(j, _) => j == i
    case CloseBody(j) => j == i
    case _ => false
  }

  function StepsOf(steps: seq<Step>, i: nat): nat {
    if steps == [] then 0 else (if IsOf(steps[0], i) then 1 else 0) + StepsOf(steps[1..], i)
  }

  lemma CancelledGetsOn(s: Sys, step: Step, i: nat)
    requires Enabled(s, step) && i in s.streams && s.streams[i].cancelled
    ensures var s' := Do(s, step);
            && i in s'.streams && s'.streams[i].cancelled
            && (if IsOf(step, i) then Proxy.Rank(s'.streams[i]) < Proxy.Rank(s.streams[i])
                else Proxy.Rank(s'.streams[i]) == Proxy.Rank(s.streams[i]))
  {
    if step.Local? && step.i == i && step.action != Proxy.Cancel {
      hide Proxy.Do, Proxy.Enabled, Proxy.Rank;
      Proxy.CancelledGetsOn(s.streams[i], step.action);
    }
  }

  /** A cancelled stream makes at most as many steps as its rank says, in any run and among any others. */
  lemma {:induction false} CancelledStepsAreBounded(s: Sys, steps: seq<Step>, i: nat)
    requires Runs(s, steps) && i in s.streams && s.streams[i].cancelled
    ensures StepsOf(steps, i) <= Proxy.Rank(s.streams[i])
    decreases |steps|
  {
    if steps != [] {
      CancelledGetsOn(s, steps[0], i);
      hide Do, Enabled, Proxy.Rank, IsOf;
      CancelledStepsAreBounded(Do(s, steps[0]), steps[1..], i);
    }
  }

  lemma GetsOn(s: Sys, step: Step, i: nat)
    requires Enabled(s, step) && i in s.streams
    ensures var s' := Do(s, step);
            && i in s'.streams
            && (if IsOf(step, i) then Proxy.Work(s'.streams[i]) < Proxy.Work(s.streams[i])
                else Proxy.Work(s'.streams[i]) == Proxy.Work(s.streams[i]))
  {
    if step.Local? && step.i == i && step.action != Proxy.Cancel {
      hide Proxy.Do, Proxy.Enabled, Proxy.Work;
      Proxy.StreamGetsOn(s.streams[i], step.action);
    }
  }

  /** Every stream, cancelled or not, makes at most so many steps, in any run and among any others. */
  lemma {:induction false} StepsAreBounded(s: Sys, steps: seq<Step>, i: nat)
    requires AllGood(s) && Runs(s, steps) && i in s.streams
    ensures StepsOf(steps, i) <= Proxy.Work(s.streams[i])
    decreases |steps|
  {
    if steps == [] {
      Proxy.WorkIsLeft(s.streams[i]);
    } else {
      GetsOn(s, steps[0], i);
      DoAllGood(s, steps[0]);
      hide Do, Enabled, Proxy.Work, IsOf, AllGood;
      StepsAreBounded(Do(s, steps[0]), steps[1..], i);
    }
  }

  /** Steps of the stream's upstream body. */
  predicate ByBody(step: Step) {
    step.Local? && Proxy.ByBody(step.action)
  }

  lemma RestIsIdle(s: Sys, i: nat)
    requires i in s.streams
    requires forall step :: IsOf(step, i) && !ByBody(step) ==> !Enabled(s, step)
    ensures Proxy.Idle(s.streams[i])
  {
    hide Proxy.Enabled;
    forall a | a != Proxy.Cancel && !Proxy.ByBody(a)
      ensures !Proxy.Enabled(s.streams[i], a)
    {
      assert IsOf(Local(i, a), i) && !ByBody(Local(i, a));
    }
    assert IsOf(Touch(i, 0), i) && !ByBody(Touch(i, 0)) && IsOf(CloseBody(i), i) && !ByBody(CloseBody(i));
  }

  /** When a cancelled stream has come to rest its body has been closed, once, and all of it is over; but
      for a reader that waits for the closed body to stop. */
  lemma CancelledComesToRest(s: Sys, i: nat)
    requires Good(s) && i in s.streams && s.streams[i].cancelled
    requires forall step :: IsOf(step, i) && !ByBody(step) ==> !Enabled(s, step)
    ensures s.streams[i].closes == 1 && (Proxy.Over(s.streams[i]) || Proxy.AwaitsBody(s.streams[i]))
    ensures (forall step :: IsOf(step, i) ==> !Enabled(s, step)) ==> Proxy.Over(s.streams[i])
  {
    var t := s.streams[i];
    RestIsIdle(s, i);
    assert ClosedOnce(s, i);
    hide Proxy.Good, Proxy.Enabled, Proxy.Idle;
    Proxy.CancelledIdleIsOver(t);
    if forall step :: IsOf(step, i) ==> !Enabled(s, step) {
      forall a | Proxy.ByBody(a)
        ensures !Proxy.Enabled(t, a)
      {
        assert IsOf(Local(i, a), i);
      }
      Proxy.CancelledQuietIsOver(t);
    }
  }

  /** No stream gets stuck: when it has come to rest, all of it is over or it waits for its upstream; and as
      soon as its call has returned its body has been closed. */
  lemma ComesToRest(s: Sys, i: nat)
    requires Good(s) && i in s.streams
    requires forall step :: IsOf(step, i) && !ByBody(step) ==> !Enabled(s, step)
    ensures var t := s.streams[i];
            && (Proxy.Over(t) || Proxy.AwaitsBody(t) || (!t.cancelled && Proxy.AwaitsUpstream(t)))
            && (t.caller.Returned? ==> t.closes == 1)
  {
    RestIsIdle(s, i);
    assert ClosedOnce(s, i);
    hide Proxy.Good, Proxy.Enabled, Proxy.Idle;
    Proxy.IdleIsOver(s.streams[i]);
  }

  // ---------------------------------------------------------------------------
  // Whom the sweeper closes

  /** When the session of stream `i` was last active: when a call began on it, or forwarded a data line. `t` is
      its last time before these steps. */
  ghost function LastActive(s: Sys, steps: seq<Step>, session: string, t: int): int
    requires Runs(s, steps)
    decreases |steps|
  {
    if steps == [] then t
    else LastActive(Do(s, steps[0]), steps[1..], session, ActiveAt(s, steps[0], session, t))
  }

  function ActiveAt(s: Sys, step: Step, session: string, t: int): int
    requires Enabled(s, step)
  {
    match step
    case Start(_, x, _, _, now) => if x == session then now else t
    case Touch(j, now) => if s.streams[j].session == session then now else t
    case _ => t
  }

  /** The table knows when the session was last active. */
  ghost predicate Dated(s: Sys, session: string, t: int) {
    session in s.conns ==> s.conns[session].last == t
  }

  lemma DoDated(s: Sys, step: Step, session: string, t: int)
    requires Enabled(s, step) && Dated(s, session, t)
    ensures Dated(Do(s, step), session, ActiveAt(s, step, session, t))
  {
  }

  lemma {:induction false} RunDated(s: Sys, steps: seq<Step>, session: string, t: int)
    requires Runs(s, steps) && Dated(s, session, t)
    ensures Dated(RunTo(s, steps), session, LastActive(s, steps, session, t))
    decreases |steps|
  {
    if steps != [] {
      DoDated(s, steps[0], session, t);
      hide Do, Enabled, Dated, ActiveAt;
      RunDated(Do(s, steps[0]), steps[1..], session, ActiveAt(s, steps[0], session, t));
    }
  }

  /** After any run the sweeper closes a body, once, exactly when its stream is registered and its session has
      been inactive for more than five minutes. */
  lemma {:induction false} SweepsInactiveOnly(steps: seq<Step>, i: nat, now: int)
    requires Runs(EMPTY, steps) && i in RunTo(EMPTY, steps).streams
    ensures var s := RunTo(EMPTY, steps);
            var idle := now - LastActive(EMPTY, steps, s.streams[i].session, 0);
            Do(s, Sweep(now)).streams[i].closes
            == s.streams[i].closes + if Registered(s, i) && idle > 5 * 60 * 1000 then 1 else 0
  {
    var s := RunTo(EMPTY, steps);
    hide RunTo, Runs, LastActive;
    RunDated(EMPTY, steps, s.streams[i].session, 0);
  }

  // ---------------------------------------------------------------------------
  // Whose body the manager can still close

  lemma DoStaysOut(s: Sys, step: Step, i: nat)
    requires Owned(s) && Enabled(s, step) && i in s.streams && !Registered(s, i)
    ensures var s' := Do(s, step);
            i in s'.streams && !Registered(s', i) && s'.streams[i].closes == s.streams[i].closes
  {
    if step.Local? {
      hide Proxy.Do, Proxy.Enabled;
      LocalKeeps(s.streams[step.i], step.action);
    }
  }

  lemma {:induction false} OutForGood(s: Sys, steps: seq<Step>, i: nat)
    requires Owned(s) && Runs(s, steps) && i in s.streams && !Registered(s, i)
    ensures i in RunTo(s, steps).streams && RunTo(s, steps).streams[i].closes == s.streams[i].closes
    decreases |steps|
  {
    if steps != [] {
      DoOwned(s, steps[0]);
      DoStaysOut(s, steps[0], i);
      hide Do, Enabled, Owned, Registered;
      OutForGood(Do(s, steps[0]), steps[1..], i);
    }
  }

  /** Some way to go on has the manager close the body of `i` once more. */
  ghost predicate CanBeClosed(s: Sys, i: nat)
    requires i in s.streams
  {
    exists steps ::
      Runs(s, steps) && i in RunTo(s, steps).streams && RunTo(s, steps).streams[i].closes > s.streams[i].closes
  }

  /** The manager can still close a stream's body if and only if the stream is registered. */
  lemma {:induction false} CanBeClosedIff(s: Sys, i: nat)
    requires Owned(s) && i in s.streams
    ensures CanBeClosed(s, i) <==> Registered(s, i)
  {
    if Registered(s, i) {
      var now := s.conns[s.streams[i].session].last + TIMEOUT + 1;
      var steps := [Sweep(now)];
      assert steps[1..] == [] && Runs(Do(s, steps[0]), []);
      assert RunTo(s, steps) == Do(s, steps[0]);
      assert SweptBy(s, i, now);
    } else {
      forall steps | Runs(s, steps)
        ensures i in RunTo(s, steps).streams && RunTo(s, steps).streams[i].closes == s.streams[i].closes
      {
        OutForGood(s, steps, i);
      }
    }
  }

  // ---------------------------------------------------------------------------
  // Sharing a session

  ghost predicate Reaches(s0: Sys, steps: seq<Step>, s: Sys) {
    Runs(s0, steps) && RunTo(s0, steps) == s
  }

  lemma {:induction false} RunMore(s0: Sys, steps: seq<Step>, s: Sys, step: Step)
    requires Reaches(s0, steps, s) && Enabled(s, step)
    ensures Reaches(s0, steps + [step], Do(s, step))
    decreases |steps|
  {
    hide Do, Enabled;
    if steps == [] {
      assert [] + [step] == [step] && [step][1..] == [];
      assert Runs(Do(s, step), []) && RunTo(Do(s, step), []) == Do(s, step);
    } else {
      assert (steps + [step])[1..] == steps[1..] + [step] && (steps + [step])[0] == steps[0];
      RunMore(Do(s0, steps[0]), steps[1..], s, step);
    }
  }

  /** The table and stream 1 of two streams that share a session, whatever stream 0 does. */
  function Pair(first: Stream, second: Stream, conns: Table<nat>): Sys {
    Sys(map[0 := first, 1 := second], conns)
  }

  lemma FirstMoves(steps: seq<Step>, first: Stream, second: Stream, conns: Table<nat>, a: Proxy.Action)
    requires Reaches(EMPTY, steps, Pair(first, second, conns)) && Proxy.Enabled(first, a)
    ensures Reaches(EMPTY, steps + [Local(0, a)], Pair(Proxy.Do(first, a), second, conns))
  {
    hide Reaches, Proxy.Do, Proxy.Enabled;
    RunMore(EMPTY, steps, Pair(first, second, conns), Local(0, a));
    assert map[0 := first, 1 := second][0 := Proxy.Do(first, a)] == map[0 := Proxy.Do(first, a), 1 := second];
  }

  lemma BothStart(decode: Decoder, upstream: Bytes) returns (steps: seq<Step>)
    ensures steps == [Start(0, "x", decode, upstream, 0), Start(1, "x", decode, upstream, 0)]
    ensures var t := Proxy.Fresh("x", decode, upstream);
            Reaches(EMPTY, steps, Pair(t, t, map["x" := Entry(1, 0)]))
  {
    var a, b := Start(0, "x", decode, upstream, 0), Start(1, "x", decode, upstream, 0);
    var t := Proxy.Fresh("x", decode, upstream);
    assert Reaches(EMPTY, [], EMPTY);
    hide Reaches, Proxy.Fresh;
    RunMore(EMPTY, [], EMPTY, a);
    RunMore(EMPTY, [] + [a], Do(EMPTY, a), b);
    steps := [] + [a] + [b];
    assert map[][0 := t][1 := t] == map[0 := t, 1 := t];
    assert map["x" := Entry(0, 0)]["x" := Entry(1, 0)] == map["x" := Entry(1, 0)];
  }

  lemma FirstIsCancelled(decode: Decoder, upstream: Bytes) returns (steps: seq<Step>, first: Stream)
    ensures var t := Proxy.Fresh("x", decode, upstream);
            && Reaches(EMPTY, steps, Pair(first, t, map["x" := Entry(1, 0)]))
            && first == t.(cancelled := true, caller := Proxy.ClosingWriter)
  {
    var t, conns := Proxy.Fresh("x", decode, upstream), map["x" := Entry(1, 0)];
    steps := BothStart(decode, upstream);
    hide Reaches;
    FirstMoves(steps, t, t, conns, Proxy.Cancel);
    var t1 := t.(cancelled := true);
    FirstMoves(steps + [Local(0, Proxy.Cancel)], t1, t, conns, Proxy.PicksCancel);
    steps := steps + [Local(0, Proxy.Cancel)] + [Local(0, Proxy.PicksCancel)];
    first := t1.(caller := Proxy.ClosingWriter);
  }

  lemma FirstReachesClose(decode: Decoder, upstream: Bytes) returns (steps: seq<Step>, first: Stream)
    ensures var t := Proxy.Fresh("x", decode, upstream);
            && Reaches(EMPTY, steps, Pair(first, t, map["x" := Entry(1, 0)]))
            && first == t.(cancelled := true, werr := Some(Proxy.Cancelled), rerr := Some(Proxy.Cancelled),
                           caller := Proxy.ClosingBody)
  {
    var t, conns := Proxy.Fresh("x", decode, upstream), map["x" := Entry(1, 0)];
    var t2: Stream;
    steps, t2 := FirstIsCancelled(decode, upstream);
    hide Reaches;
    FirstMoves(steps, t2, t, conns, Proxy.CloseWriter);
    var t3 := t2.(werr := Some(Proxy.Cancelled), caller := Proxy.ClosingReader);
    FirstMoves(steps + [Local(0, Proxy.CloseWriter)], t3, t, conns, Proxy.CloseReader);
    steps := steps + [Local(0, Proxy.CloseWriter)] + [Local(0, Proxy.CloseReader)];
    first := t3.(rerr := Some(Proxy.Cancelled), caller := Proxy.ClosingBody);
  }

  lemma FirstClosesSecond(steps: seq<Step>, first: Stream, second: Stream)
    requires Reaches(EMPTY, steps, Pair(first, second, map["x" := Entry(1, 0)]))
    requires first.session == "x" && first.caller.ClosingBody?
    ensures Reaches(EMPTY, steps + [CloseBody(0)], Pair(first.(caller := Proxy.Draining), Closed(second), map[]))
  {
    var s := Pair(first, second, map["x" := Entry(1, 0)]);
    hide Reaches;
    RunMore(EMPTY, steps, s, CloseBody(0));
    assert map["x" := Entry(1, 0)] - {"x"} == map[];
    assert Do(s, CloseBody(0)).streams == map[0 := first.(caller := Proxy.Draining), 1 := Closed(second)];
  }

  /** When two calls at work share a session, the first of them to give up closes the body of the other:
      it returns with its own body open, and nothing can close that any more. */
  lemma SharedSessionLeavesBodyOpen(decode: Decoder, upstream: Bytes) returns (steps: seq<Step>, s: Sys)
    ensures Reaches(EMPTY, steps, s) && Owned(s) && 0 in s.streams && 1 in s.streams
    ensures s.streams[0].caller.Returned? && s.streams[0].closes == 0 && !CanBeClosed(s, 0)
    ensures s.streams[1].caller.Selecting? && s.streams[1].closes == 1
  {
    var first: Stream;
    steps, first := FirstReachesClose(decode, upstream);
    var t, none := Proxy.Fresh("x", decode, upstream), map[];
    FirstClosesSecond(steps, first, t);
    steps := steps + [CloseBody(0)];
    hide Reaches, CanBeClosed;
    var t1 := first.(caller := Proxy.Draining);
    FirstMoves(steps, t1, Closed(t), none, Proxy.PipeCloses);
    var t2 := t1.(copier := Proxy.Reported(Some(Proxy.ClosedPipe)));
    FirstMoves(steps + [Local(0, Proxy.PipeCloses)], t2, Closed(t), none, Proxy.Drain);
    var t3 := t2.(caller := Proxy.Returned(t2.counts, Some(Proxy.Cancelled)));
    steps := steps + [Local(0, Proxy.PipeCloses)] + [Local(0, Proxy.Drain)];
    s := Pair(t3, Closed(t), none);
    CanBeClosedIff(s, 0);
  }
}
