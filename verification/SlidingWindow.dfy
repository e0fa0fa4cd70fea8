// The ring of one-second buckets behind the circuit breaker's error rate, and the timed
// log of events that it abbreviates. Times are nanoseconds since the Unix epoch.
module SlidingWindow {
  import opened Common

  const SECOND: int := 1_000_000_000

  /** One recorded request. */
  datatype Event = Event(at: int, ok: bool)

  /** A bucket; no stamp is Go's zero time, which is further away than any window is long. */
  datatype Bucket = Bucket(stamp: Option<int>, success: nat, failure: nat) {
    function Tally(ok: bool): nat {
      if ok then success else failure
    }
  }

  const EMPTY := Bucket(None, 0, 0)

  function Second(t: int): (s: int)
    ensures s * SECOND <= t < (s + 1) * SECOND
  {
    t / SECOND
  }

  function Slot(t: int, n: nat): nat
    requires n > 0
  {
    Second(t) % n
  }

  predicate Stale(b: Bucket, now: int) {
    b.stamp.None? || now - b.stamp.value > SECOND
  }

  predicate InWindow(b: Bucket, n: nat, now: int) {
    b.stamp.Some? && now - b.stamp.value <= n * SECOND
  }

  function Fresh(b: Bucket, now: int): Bucket {
    if Stale(b, now) then Bucket(Some(now), 0, 0) else b
  }

  function Bumped(b: Bucket, ok: bool): Bucket {
    if ok then b.(success := b.success + 1) else b.(failure := b.failure + 1)
  }

  /** The ring after a record at `now`. */
  function Recorded(ring: seq<Bucket>, now: int, ok: bool): (r: seq<Bucket>)
    requires |ring| > 0
    ensures |r| == |ring|
  {
    var i := Slot(now, |ring|);
    ring[i := Bumped(Fresh(ring[i], now), ok)]
  }

  /** Successes (or failures) in the first `k` buckets that are inside the window. */
  function Sum(ring: seq<Bucket>, now: int, ok: bool, k: nat): nat
    requires k <= |ring|
  {
    if k == 0 then 0
    else Sum(ring, now, ok, k - 1) + if InWindow(ring[k - 1], |ring|, now) then ring[k - 1].Tally(ok) else 0
  }

  function Total(ring: seq<Bucket>, now: int, ok: bool): nat {
    Sum(ring, now, ok, |ring|)
  }

  // ---------------------------------------------------------------------------
  // The log, and what the ring says about it

  function Count(log: seq<Event>, p: Event -> bool): nat {
    if log == [] then 0
    else Count(log[..|log| - 1], p) + if p(log[|log| - 1]) then 1 else 0
  }

  /** Events come in time order, none before the epoch. */
  ghost predicate Timed(log: seq<Event>) {
    && (forall e :: e in log ==> 0 <= e.at)
    && (forall i, j :: 0 <= i < j < |log| ==> log[i].at <= log[j].at)
  }

  ghost predicate Until(log: seq<Event>, now: int) {
    && 0 <= now
    && Timed(log)
    && (forall e :: e in log ==> e.at <= now)
  }

  function CountedIn(i: nat, n: nat, since: int, ok: bool): Event -> bool
    requires n > 0
  {
    (e: Event) => Slot(e.at, n) == i && e.at >= since && e.ok == ok
  }

  /** Bucket `i` of `n` tells the truth about `log`: it counts the events of its slot from its
      stamp on. With at least two buckets all of those lie in the second of the stamp, and no
      later second of the same slot has an event. */
  ghost predicate Describes(b: Bucket, i: nat, n: nat, log: seq<Event>)
    requires n > 0
  {
    match b.stamp
    case None =>
      && b.success == 0 && b.failure == 0
      && (forall e :: e in log ==> Slot(e.at, n) != i)
    case Some(t) =>
      && Slot(t, n) == i
      && (exists e :: e in log && e.at == t)
      && b.success == Count(log, CountedIn(i, n, t, true))
      && b.failure == Count(log, CountedIn(i, n, t, false))
      && (forall e :: e in log && Slot(e.at, n) == i ==> e.at <= t + SECOND)
      && (n >= 2 ==> forall e :: e in log && Slot(e.at, n) == i ==>
           Second(e.at) <= Second(t) && (Second(e.at) == Second(t) ==> t <= e.at))
  }

  ghost predicate Represents(ring: seq<Bucket>, log: seq<Event>) {
    forall i {:trigger ring[i]} :: 0 <= i < |ring| ==> Describes(ring[i], i, |ring|, log)
  }

  lemma SameSlot(a: int, b: int, n: nat)
    requires n > 0 && 0 <= a && Slot(a, n) == Slot(b, n) && Second(a) < Second(b)
    ensures Second(b) - Second(a) >= n
  {
    var x, y := Second(a), Second(b);
    assert x == n * (x / n) + x % n && y == n * (y / n) + y % n;
    var d := y / n - x / n;
    assert y - x == n * d;
    assert d >= 1;
    assert n * d >= n;
  }

  lemma {:induction false} CountSnoc(log: seq<Event>, e: Event, p: Event -> bool)
    ensures Count(log + [e], p) == Count(log, p) + if p(e) then 1 else 0
  {
    assert (log + [e])[..|log|] == log;
  }

  lemma {:induction false} CountSame(log: seq<Event>, p: Event -> bool, q: Event -> bool)
    requires forall e :: e in log ==> p(e) == q(e)
    ensures Count(log, p) == Count(log, q)
  {
    if log != [] {
      CountSame(log[..|log| - 1], p, q);
    }
  }

  lemma {:induction false} CountNone(log: seq<Event>, p: Event -> bool)
    requires forall e :: e in log ==> !p(e)
    ensures Count(log, p) == 0
  {
    if log != [] {
      CountNone(log[..|log| - 1], p);
    }
  }

  lemma {:induction false} CountSplit(log: seq<Event>, p: Event -> bool, q: Event -> bool, r: Event -> bool)
    requires forall e :: e in log ==> !(p(e) && q(e)) && (r(e) <==> p(e) || q(e))
    ensures Count(log, r) == Count(log, p) + Count(log, q)
  {
    if log != [] {
      CountSplit(log[..|log| - 1], p, q, r);
    }
  }

  /** A bucket of another slot is untouched by a record, and still tells the truth. */
  lemma DescribesOther(b: Bucket, i: nat, n: nat, log: seq<Event>, e: Event)
    requires n > 0 && Describes(b, i, n, log) && Slot(e.at, n) != i
    ensures Describes(b, i, n, log + [e])
  {
    if b.stamp.Some? {
      CountSnoc(log, e, CountedIn(i, n, b.stamp.value, true));
      CountSnoc(log, e, CountedIn(i, n, b.stamp.value, false));
      var w :| w in log && w.at == b.stamp.value;
      assert w in log + [e];
    }
  }

  /** The slot of the new event restarts. */
  lemma DescribesRestarted(b: Bucket, i: nat, n: nat, log: seq<Event>, e: Event)
    requires n > 0 && Describes(b, i, n, log) && Until(log, e.at)
    requires Slot(e.at, n) == i && Stale(b, e.at)
    ensures Describes(Bumped(Bucket(Some(e.at), 0, 0), e.ok), i, n, log + [e])
  {
    forall f | f in log && Slot(f.at, n) == i
      ensures f.at < e.at && (n >= 2 ==> Second(f.at) < Second(e.at))
    {
      var t := b.stamp.value;
      if n >= 2 {
        assert Second(t) < Second(e.at);
      }
    }
    CountNone(log, CountedIn(i, n, e.at, true));
    CountNone(log, CountedIn(i, n, e.at, false));
    CountSnoc(log, e, CountedIn(i, n, e.at, true));
    CountSnoc(log, e, CountedIn(i, n, e.at, false));
    assert e in log + [e];
  }

  /** The slot of the new event goes on counting. */
  lemma DescribesContinued(b: Bucket, i: nat, n: nat, log: seq<Event>, e: Event)
    requires n > 0 && Describes(b, i, n, log) && Until(log, e.at)
    requires Slot(e.at, n) == i && !Stale(b, e.at)
    ensures Describes(Bumped(b, e.ok), i, n, log + [e])
  {
    var t := b.stamp.value;
    var w :| w in log && w.at == t;
    assert w in log + [e];
    CountSnoc(log, e, CountedIn(i, n, t, true));
    CountSnoc(log, e, CountedIn(i, n, t, false));
    if n >= 2 && Second(t) < Second(e.at) {
      SameSlot(t, e.at, n);
    }
  }

  lemma RecordKeeps(ring: seq<Bucket>, log: seq<Event>, now: int, ok: bool)
    requires |ring| > 0 && Represents(ring, log) && Until(log, now)
    ensures Represents(Recorded(ring, now, ok), log + [Event(now, ok)])
    ensures Until(log + [Event(now, ok)], now)
  {
    var n, e := |ring|, Event(now, ok);
    var r := Recorded(ring, now, ok);
    forall i | 0 <= i < |r|
      ensures Describes(r[i], i, n, log + [e])
    {
      if i != Slot(now, n) {
        DescribesOther(ring[i], i, n, log, e);
      } else if Stale(ring[i], now) {
        DescribesRestarted(ring[i], i, n, log, e);
      } else {
        DescribesContinued(ring[i], i, n, log, e);
      }
    }
  }

  // ---------------------------------------------------------------------------
  // Which events the totals count

  /** The totals count `e` because its bucket is in the window and began no later than `e`. */
  function Seen(ring: seq<Bucket>, now: int, ok: bool, k: nat): Event -> bool
    requires 0 < k <= |ring|
  {
    (e: Event) =>
      var b := ring[Slot(e.at, |ring|)];
      Slot(e.at, |ring|) < k && InWindow(b, |ring|, now) && b.stamp.value <= e.at && e.ok == ok
  }

  function SeenLast(ring: seq<Bucket>, now: int, ok: bool, k: nat): Event -> bool
    requires 0 < k <= |ring|
  {
    (e: Event) =>
      var b := ring[k - 1];
      Slot(e.at, |ring|) == k - 1 && InWindow(b, |ring|, now) && b.stamp.value <= e.at && e.ok == ok
  }

  /** What one bucket adds to the total. */
  lemma {:induction false} BucketCounts(ring: seq<Bucket>, log: seq<Event>, now: int, ok: bool, k: nat)
    requires 0 < k <= |ring| && Represents(ring, log)
    ensures Count(log, SeenLast(ring, now, ok, k))
            == if InWindow(ring[k - 1], |ring|, now) then ring[k - 1].Tally(ok) else 0
  {
    var n, b, last := |ring|, ring[k - 1], SeenLast(ring, now, ok, k);
    assert Describes(b, k - 1, n, log);
    hide Represents, Count;
    if InWindow(b, n, now) {
      CountSame(log, CountedIn(k - 1, n, b.stamp.value, ok), last);
    } else {
      CountNone(log, last);
    }
  }

  lemma {:induction false} SumCounts(ring: seq<Bucket>, log: seq<Event>, now: int, ok: bool, k: nat)
    requires 0 < k <= |ring| && Represents(ring, log)
    ensures Sum(ring, now, ok, k) == Count(log, Seen(ring, now, ok, k))
  {
    var last := SeenLast(ring, now, ok, k);
    hide Represents, Count;
    BucketCounts(ring, log, now, ok, k);
    if k == 1 {
      assert Sum(ring, now, ok, 0) == 0;
      hide Sum;
      CountSame(log, last, Seen(ring, now, ok, 1));
    } else {
      SumCounts(ring, log, now, ok, k - 1);
      CountSplit(log, Seen(ring, now, ok, k - 1), last, Seen(ring, now, ok, k));
    }
  }

  /** When a lone bucket last started over: it does so whenever an event is more than a second later
      than its last start. */
  function LastStart(log: seq<Event>): Option<int> {
    if log == [] then None
    else
      var before, t := LastStart(log[..|log| - 1]), log[|log| - 1].at;
      if before.None? || t - before.value > SECOND then Some(t) else before
  }

  /** The view of the log that the totals give. With one bucket: the events since its last start, for
      as long as that is within a second. With more: the last `n` seconds up to that of `now`; and the
      second before them when the current second is still without an event and that older second
      began inside the window. */
  ghost predicate Visible(log: seq<Event>, n: nat, now: int, e: Event) {
    if n == 1 then
      var start := LastStart(log);
      start.Some? && start.value <= e.at && now - start.value <= SECOND
    else
      || Second(e.at) > Second(now) - n
      || ( && Second(e.at) == Second(now) - n
           && (forall f :: f in log ==> Second(f.at) != Second(now))
           && (forall f :: f in log && Second(f.at) == Second(e.at) ==> now - f.at <= n * SECOND))
  }

  ghost function VisibleIs(log: seq<Event>, n: nat, now: int, ok: bool): Event -> bool {
    (e: Event) => Visible(log, n, now, e) && e.ok == ok
  }

  lemma SeenIffVisible(ring: seq<Bucket>, log: seq<Event>, now: int, ok: bool, e: Event)
    requires |ring| >= 2 && Represents(ring, log) && Until(log, now) && e in log
    ensures Seen(ring, now, ok, |ring|)(e) <==> VisibleIs(log, |ring|, now, ok)(e)
  {
    var n := |ring|;
    var i := Slot(e.at, n);
    var b := ring[i];
    assert Describes(b, i, n, log);
    var t := b.stamp.value;
    var w :| w in log && w.at == t;
    if Second(e.at) < Second(t) {
      SameSlot(e.at, t, n);
      if Second(e.at) == Second(now) - n {
        assert Second(w.at) == Second(now);
      }
    } else if Second(e.at) == Second(now) - n {
      forall f | f in log
        ensures Second(f.at) != Second(now)
      {
        if Second(f.at) == Second(now) {
          assert Second(f.at) == Second(e.at) + n;
          ShiftedSlot(e.at, f.at, n);
        }
      }
      assert Second(w.at) == Second(e.at);
    }
  }

  lemma ShiftedSlot(a: int, b: int, n: nat)
    requires n > 0 && Second(b) == Second(a) + n
    ensures Slot(b, n) == Slot(a, n)
  {
    var x := Second(a);
    assert x == n * (x / n) + x % n;
    assert x + n == n * (x / n + 1) + x % n;
    UniqueRemainder(x + n, n, x / n + 1, x % n);
  }

  /** The ring refines the log: with at least two buckets, its totals are the counts of exactly the
      visible events. */
  lemma {:induction false} TotalsAreCounts(ring: seq<Bucket>, log: seq<Event>, now: int, ok: bool)
    requires |ring| >= 2 && Represents(ring, log) && Until(log, now)
    ensures Total(ring, now, ok) == Count(log, VisibleIs(log, |ring|, now, ok))
  {
    SumCounts(ring, log, now, ok, |ring|);
    forall e | e in log
      ensures Seen(ring, now, ok, |ring|)(e) == VisibleIs(log, |ring|, now, ok)(e)
    {
      SeenIffVisible(ring, log, now, ok, e);
    }
    CountSame(log, Seen(ring, now, ok, |ring|), VisibleIs(log, |ring|, now, ok));
  }

  // ---------------------------------------------------------------------------
  // Whole runs of records

  /** The ring of `n` buckets after recording a whole log. */
  function RingAfter(n: nat, log: seq<Event>): (r: seq<Bucket>)
    requires n > 0
    ensures |r| == n
  {
    if log == [] then seq(n, _ => EMPTY)
    else
      var e := log[|log| - 1];
      Recorded(RingAfter(n, log[..|log| - 1]), e.at, e.ok)
  }

  lemma TimedInit(log: seq<Event>)
    requires Timed(log) && log != []
    ensures Until(log[..|log| - 1], log[|log| - 1].at)
  {
    var init, last := log[..|log| - 1], log[|log| - 1];
    assert last in log && forall i :: 0 <= i < |init| ==> init[i] == log[i] && log[i] in log;
  }

  lemma {:induction false} RingRepresents(n: nat, log: seq<Event>)
    requires n > 0 && Timed(log)
    ensures Represents(RingAfter(n, log), log)
  {
    if log != [] {
      var init, e := log[..|log| - 1], log[|log| - 1];
      assert log == init + [e] && e == Event(e.at, e.ok);
      TimedInit(log);
      hide Represents, Recorded;
      RingRepresents(n, init);
      RecordKeeps(RingAfter(n, init), init, e.at, e.ok);
    }
  }

  lemma {:induction false} OneBucketStamp(log: seq<Event>)
    ensures RingAfter(1, log)[0].stamp == LastStart(log)
  {
    if log != [] {
      OneBucketStamp(log[..|log| - 1]);
      assert Slot(log[|log| - 1].at, 1) == 0;
    }
  }

  lemma {:induction false} OneBucketCounts(log: seq<Event>, now: int, ok: bool)
    requires Until(log, now)
    ensures Total(RingAfter(1, log), now, ok) == Count(log, VisibleIs(log, 1, now, ok))
  {
    var ring := RingAfter(1, log);
    RingRepresents(1, log);
    OneBucketStamp(log);
    SumCounts(ring, log, now, ok, 1);
    hide RingAfter, Represents, Count;
    forall e | e in log
      ensures Seen(ring, now, ok, 1)(e) == VisibleIs(log, 1, now, ok)(e)
    {
      assert Slot(e.at, 1) == 0;
    }
    CountSame(log, Seen(ring, now, ok, 1), VisibleIs(log, 1, now, ok));
  }

  /** After any timed run of records, the totals are the counts of exactly the visible events. */
  lemma {:induction false} RingRefinesLog(n: nat, log: seq<Event>, now: int, ok: bool)
    requires n > 0 && Until(log, now)
    ensures Total(RingAfter(n, log), now, ok) == Count(log, VisibleIs(log, n, now, ok))
  {
    if n == 1 {
      OneBucketCounts(log, now, ok);
    } else {
      RingRepresents(n, log);
      TotalsAreCounts(RingAfter(n, log), log, now, ok);
    }
  }

  function Since(t: int, ok: bool): Event -> bool {
    (e: Event) => e.at >= t && e.ok == ok
  }

  lemma {:induction false} CountGrows(log: seq<Event>, p: Event -> bool, q: Event -> bool)
    requires forall e :: e in log && p(e) ==> q(e)
    ensures Count(log, p) <= Count(log, q)
  {
    if log != [] {
      CountGrows(log[..|log| - 1], p, q);
    }
  }

  /** However many buckets there are, nothing older than the window is ever counted. */
  lemma {:induction false} NothingOldIsCounted(n: nat, log: seq<Event>, now: int, ok: bool)
    requires n > 0 && Until(log, now)
    ensures Total(RingAfter(n, log), now, ok) <= Count(log, Since(now - n * SECOND, ok))
  {
    var ring := RingAfter(n, log);
    RingRepresents(n, log);
    SumCounts(ring, log, now, ok, n);
    CountGrows(log, Seen(ring, now, ok, n), Since(now - n * SECOND, ok));
  }

  // ---------------------------------------------------------------------------
  // Which recent events can be lost

  /** The event is among those that the totals count. */
  predicate Counted(n: nat, log: seq<Event>, now: int, e: Event)
    requires n > 0
  {
    Seen(RingAfter(n, log), now, e.ok, n)(e)
  }

  /** The totals count the counted events, and those are the visible ones. */
  lemma {:induction false} CountedIffVisible(n: nat, log: seq<Event>, now: int, e: Event)
    requires n > 0 && Until(log, now) && e in log
    ensures Counted(n, log, now, e) <==> Visible(log, n, now, e)
    ensures Total(RingAfter(n, log), now, e.ok) == Count(log, (f: Event) => Counted(n, log, now, f) && f.ok == e.ok)
  {
    var ring := RingAfter(n, log);
    RingRepresents(n, log);
    SumCounts(ring, log, now, e.ok, n);
    hide RingAfter, Represents, Count, Sum;
    CountSame(log, Seen(ring, now, e.ok, n), (f: Event) => Counted(n, log, now, f) && f.ok == e.ok);
    if n == 1 {
      OneBucketStamp(log);
      assert Slot(e.at, 1) == 0;
    } else {
      SeenIffVisible(ring, log, now, e.ok, e);
    }
  }

  /** In every run every event of the last `n` seconds by index, the current one included, is counted. */
  ghost predicate AlwaysCovers(n: nat)
    requires n > 0
  {
    forall log: seq<Event>, now: int, e: Event {:trigger Counted(n, log, now, e)} ::
      Until(log, now) && e in log && Second(e.at) > Second(now) - n ==> Counted(n, log, now, e)
  }

  /** One bucket is the only ring size that can lose an event of those seconds. */
  lemma CoversIffTwoBuckets(n: nat)
    requires n > 0
    ensures AlwaysCovers(n) <==> n >= 2
  {
    if n >= 2 {
      forall log: seq<Event>, now: int, e: Event | Until(log, now) && e in log && Second(e.at) > Second(now) - n
        ensures Counted(n, log, now, e)
      {
        CountedIffVisible(n, log, now, e);
      }
    } else {
      var log, now := OneBucketForgets();
      assert !Counted(1, log, now, log[1]);
    }
  }

  /** Failures at 0.5s and 1.2s share the one bucket, whose stamp stays 0.5s: at 1.6s both are
      dropped, the failure of the current second included. */
  lemma OneBucketForgets() returns (log: seq<Event>, now: int)
    ensures log == [Event(500_000_000, false), Event(1_200_000_000, false)] && now == 1_600_000_000
    ensures Until(log, now) && Second(log[1].at) == Second(now) && !Counted(1, log, now, log[1])
    ensures Total(RingAfter(1, log), now, false) == 0
  {
    var a, b := Event(500_000_000, false), Event(1_200_000_000, false);
    log, now := [a, b], 1_600_000_000;
    assert log[..1] == [a] && [a][..0] == [];
    var r0, r1, r2 := RingAfter(1, []), RingAfter(1, [a]), RingAfter(1, log);
    assert r0[0] == EMPTY && Slot(a.at, 1) == 0 && Slot(b.at, 1) == 0;
    assert r1 == Recorded(r0, a.at, a.ok) && r1[0] == Bucket(Some(a.at), 0, 1);
    assert r2 == Recorded(r1, b.at, b.ok) && r2[0] == Bucket(Some(a.at), 0, 2);
    assert !InWindow(r2[0], 1, now);
    assert Sum(r2, now, false, 0) == 0;
  }

  // ---------------------------------------------------------------------------
  // When the rate is that of the window

  /** The successes and the failures that the rate uses are those of the last `n` seconds of time. */
  ghost predicate CountsWindow(n: nat, log: seq<Event>, now: int)
    requires n > 0
  {
    forall ok :: Total(RingAfter(n, log), now, ok) == Count(log, Since(now - n * SECOND, ok))
  }

  /** No event of the second in which the window begins is inside it; or all of that second's events are,
      and the current second has none. With one bucket: no event is inside, or all of those that are have
      come since its last start, which is inside too. */
  ghost predicate NothingCut(n: nat, log: seq<Event>, now: int)
    requires n > 0
  {
    var begin := now - n * SECOND;
    if n == 1 then
      || (forall e :: e in log ==> e.at < begin)
      || (LastStart(log).Some? && LastStart(log).value >= begin
          && forall e :: e in log && e.at >= begin ==> e.at >= LastStart(log).value)
    else
      || (forall e :: e in log && Second(e.at) == Second(now) - n ==> e.at < begin)
      || ( && (forall e :: e in log ==> Second(e.at) != Second(now))
           && (forall e :: e in log && Second(e.at) == Second(now) - n ==> e.at >= begin))
  }

  lemma {:induction false} CountsEqualIff(log: seq<Event>, p: Event -> bool, q: Event -> bool)
    requires forall e :: e in log && p(e) ==> q(e)
    ensures Count(log, p) == Count(log, q) <==> forall e :: e in log && q(e) ==> p(e)
  {
    if log != [] {
      var init, last := log[..|log| - 1], log[|log| - 1];
      assert forall e :: e in log <==> e in init || e == last;
      CountsEqualIff(init, p, q);
      CountGrows(init, p, q);
    }
  }

  lemma VisibleIsInside(n: nat, log: seq<Event>, now: int, e: Event)
    requires n > 0 && Until(log, now) && e in log && Visible(log, n, now, e)
    ensures e.at >= now - n * SECOND
  {
  }

  lemma NothingCutIff(n: nat, log: seq<Event>, now: int)
    requires n > 0 && Until(log, now)
    ensures NothingCut(n, log, now) <==> forall e :: e in log && e.at >= now - n * SECOND ==> Visible(log, n, now, e)
  {
  }

  /** Every success, or failure, inside the window is visible. */
  ghost predicate AllInsideVisible(n: nat, log: seq<Event>, now: int, ok: bool) {
    forall e :: e in log && e.at >= now - n * SECOND && e.ok == ok ==> Visible(log, n, now, e)
  }

  lemma {:induction false} CountsInsideIff(n: nat, log: seq<Event>, now: int, ok: bool)
    requires n > 0 && Until(log, now)
    ensures Total(RingAfter(n, log), now, ok) == Count(log, Since(now - n * SECOND, ok))
            <==> AllInsideVisible(n, log, now, ok)
  {
    RingRefinesLog(n, log, now, ok);
    hide Total, RingAfter, Count, Visible;
    forall e | e in log && VisibleIs(log, n, now, ok)(e)
      ensures Since(now - n * SECOND, ok)(e)
    {
      VisibleIsInside(n, log, now, e);
    }
    CountsEqualIff(log, VisibleIs(log, n, now, ok), Since(now - n * SECOND, ok));
  }

  /** The rate is that of the window, for any number of buckets, if and only if the window cuts nothing
      off from a second whose events it shares with older ones. */
  lemma CountsWindowIff(n: nat, log: seq<Event>, now: int)
    requires n > 0 && Until(log, now)
    ensures CountsWindow(n, log, now) <==> NothingCut(n, log, now)
  {
    NothingCutIff(n, log, now);
    hide NothingCut, Visible, Total, RingAfter, Count, Until;
    CountsInsideIff(n, log, now, true);
    CountsInsideIff(n, log, now, false);
  }

  /** Ten buckets: failures at 0.1s and 0.5s share one, and at 10.2s it is dropped with both, though the
      second failure is but 9.7 seconds old. */
  lemma {:induction false} TenBucketsForget() returns (log: seq<Event>, now: int)
    ensures log == [Event(100_000_000, false), Event(500_000_000, false)] && now == 10_200_000_000
    ensures Until(log, now) && Total(RingAfter(10, log), now, false) == 0
    ensures Count(log, Since(now - 10 * SECOND, false)) == 1
  {
    var a, b := Event(100_000_000, false), Event(500_000_000, false);
    log, now := [a, b], 10_200_000_000;
    RingRefinesLog(10, log, now, false);
    CountNone(log, VisibleIs(log, 10, now, false));
    assert log[..1] == [a] && [a][..0] == [];
    var p := Since(now - 10 * SECOND, false);
    assert !p(a) && p(b) && Count([a], p) == 0;
  }
}
