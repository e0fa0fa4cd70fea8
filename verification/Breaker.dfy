// The circuit breaker: one closed/open/half-open machine per key, fed by a sliding window.
// Machine states and their transitions are values here; the classes below update them in place.
module Breaker {
  import opened Common
  import opened SlidingWindow

  /** A fraction `num/den`, `den` positive. */
  datatype Ratio = Ratio(num: int, den: int)

  predicate Less(a: Ratio, b: Ratio) {
    a.num * b.den < b.num * a.den
  }

  datatype Config = Config(windowSize: int, threshold: Ratio, halfOpenTimeout: int, maxRequests: int)

  /** Whole seconds of the window size, at least one. */
  function TotalBuckets(cfg: Config): (n: nat)
    ensures n >= 1
    ensures cfg.windowSize >= SECOND ==> n * SECOND <= cfg.windowSize < (n + 1) * SECOND
    ensures cfg.windowSize < SECOND ==> n == 1
  {
    if cfg.windowSize / SECOND < 1 then 1 else cfg.windowSize / SECOND
  }

  datatype State = Closed | Open | HalfOpen

  datatype KeyState = KeyState(ring: seq<Bucket>, state: State, lastChange: int, probes: int)

  /** The clock readings of one operation, in the order they are taken: when a missing window is
      made, and then up to three under the window's lock. */
  datatype Clock = Clock(made: int, t1: int, t2: int, t3: int)

  function NewWindow(cfg: Config, now: int): KeyState {
    KeyState(seq(TotalBuckets(cfg), _ => EMPTY), Closed, now, 0)
  }

  function ErrorRate(ring: seq<Bucket>, now: int): (r: Ratio)
    ensures r.den > 0
  {
    var total := Total(ring, now, true) + Total(ring, now, false);
    if total == 0 then Ratio(0, 1) else Ratio(Total(ring, now, false), total)
  }

  function Allow(cfg: Config, k: KeyState, c: Clock): (KeyState, bool) {
    match k.state
    case Closed => (k, true)
    case Open =>
      if c.t1 - k.lastChange > cfg.halfOpenTimeout
      then (k.(state := HalfOpen, lastChange := c.t2, probes := 0), true)
      else (k, false)
    case HalfOpen =>
      if k.probes < cfg.maxRequests then (k.(probes := k.probes + 1), true) else (k, false)
  }

  function Succeed(cfg: Config, k: KeyState, c: Clock): KeyState
    requires |k.ring| > 0
  {
    var ring := Recorded(k.ring, c.t1, true);
    if k.state.HalfOpen? && Less(ErrorRate(ring, c.t2), cfg.threshold)
    then k.(ring := ring, state := Closed, lastChange := c.t3)
    else k.(ring := ring)
  }

  function Fail(cfg: Config, k: KeyState, c: Clock): KeyState
    requires |k.ring| > 0
  {
    var ring := Recorded(k.ring, c.t1, false);
    if Less(cfg.threshold, ErrorRate(ring, c.t2)) && k.state.Closed?
    then k.(ring := ring, state := Open, lastChange := c.t3)
    else k.(ring := ring)
  }

  // ---------------------------------------------------------------------------
  // All keys together

  type Keys = map<string, KeyState>

  ghost predicate Sized(cfg: Config, m: Keys) {
    forall k :: k in m ==> |m[k].ring| == TotalBuckets(cfg)
  }

  function LoadOrNew(cfg: Config, m: Keys, key: string, c: Clock): KeyState {
    if key in m then m[key] else NewWindow(cfg, c.made)
  }

  function AllowKey(cfg: Config, m: Keys, key: string, c: Clock): (Keys, bool) {
    var (k, admitted) := Allow(cfg, LoadOrNew(cfg, m, key, c), c);
    (m[key := k], admitted)
  }

  function SucceedKey(cfg: Config, m: Keys, key: string, c: Clock): Keys
    requires Sized(cfg, m)
  {
    if key in m then m[key := Succeed(cfg, m[key], c)] else m
  }

  function FailKey(cfg: Config, m: Keys, key: string, c: Clock): Keys
    requires Sized(cfg, m)
  {
    m[key := Fail(cfg, LoadOrNew(cfg, m, key, c), c)]
  }

  lemma LoadFirst(cfg: Config, m: Keys, key: string, c: Clock)
    requires Sized(cfg, m)
    ensures var loaded := m[key := LoadOrNew(cfg, m, key, c)];
      && AllowKey(cfg, loaded, key, c) == AllowKey(cfg, m, key, c)
      && FailKey(cfg, loaded, key, c) == FailKey(cfg, m, key, c)
  {
    var k := LoadOrNew(cfg, m, key, c);
    var asked, failed := Allow(cfg, k, c).0, Fail(cfg, k, c);
    assert m[key := k][key := asked] == m[key := asked];
    assert m[key := k][key := failed] == m[key := failed];
  }

  // ---------------------------------------------------------------------------
  // In place

  class Window {
    const buckets: array<Bucket>
    var state: State
    var lastChange: int
    var probes: int

    ghost function Abs(): KeyState
      reads this, buckets
    {
      KeyState(buckets[..], state, lastChange, probes)
    }

    constructor (n: nat, now: int)
      requires n > 0
      ensures fresh(buckets) && buckets.Length == n
      ensures Abs() == KeyState(seq(n, _ => EMPTY), Closed, now, 0)
    {
      buckets := new Bucket[n](_ => EMPTY);
      state, lastChange, probes := Closed, now, 0;
      new;
      assert buckets[..] == seq(n, _ => EMPTY);
    }

    method Record(ok: bool, now: int)
      requires buckets.Length > 0
      modifies buckets
      ensures buckets[..] == Recorded(old(buckets[..]), now, ok)
    {
      var i := Slot(now, buckets.Length);
      if Stale(buckets[i], now) {
        buckets[i] := Bucket(Some(now), 0, 0);
      }
      if ok {
        buckets[i] := buckets[i].(success := buckets[i].success + 1);
      } else {
        buckets[i] := buckets[i].(failure := buckets[i].failure + 1);
      }
    }

    method CalculateErrorRate(now: int) returns (rate: Ratio)
      ensures rate == ErrorRate(buckets[..], now)
    {
      var totalSuccess, totalFailure := 0, 0;
      for i := 0 to buckets.Length
        invariant totalSuccess == Sum(buckets[..], now, true, i)
        invariant totalFailure == Sum(buckets[..], now, false, i)
      {
        if InWindow(buckets[i], buckets.Length, now) {
          totalSuccess := totalSuccess + buckets[i].success;
          totalFailure := totalFailure + buckets[i].failure;
        }
      }
      var total := totalSuccess + totalFailure;
      rate := if total == 0 then Ratio(0, 1) else Ratio(totalFailure, total);
    }

    // The three sections that run under the window's lock

    method Ask(cfg: Config, c: Clock) returns (admitted: bool)
      modifies this
      ensures (Abs(), admitted) == Allow(cfg, old(Abs()), c)
    {
      match state
      case Closed =>
        admitted := true;
      case Open =>
        if c.t1 - lastChange > cfg.halfOpenTimeout {
          state := HalfOpen;
          lastChange := c.t2;
          probes := 0;
          admitted := true;
        } else {
          admitted := false;
        }
      case HalfOpen =>
        if probes < cfg.maxRequests {
          probes := probes + 1;
          admitted := true;
        } else {
          admitted := false;
        }
    }

    method OnSuccess(cfg: Config, c: Clock)
      requires buckets.Length > 0
      modifies this, buckets
      ensures Abs() == Succeed(cfg, old(Abs()), c)
    {
      Record(true, c.t1);
      if state.HalfOpen? {
        var rate := CalculateErrorRate(c.t2);
        if Less(rate, cfg.threshold) {
          state := Closed;
          lastChange := c.t3;
        }
      }
    }

    method OnFailure(cfg: Config, c: Clock)
      requires buckets.Length > 0
      modifies this, buckets
      ensures Abs() == Fail(cfg, old(Abs()), c)
    {
      Record(false, c.t1);
      var rate := CalculateErrorRate(c.t2);
      if Less(cfg.threshold, rate) && state.Closed? {
        state := Open;
        lastChange := c.t3;
      }
    }
  }

  class CircuitBreaker {
    const cfg: Config
    var windows: map<string, Window>

    ghost function Repr(): set<object>
      reads this
    {
      (set k | k in windows :: windows[k]) + (set k | k in windows :: windows[k].buckets)
    }

    /** Every key has a window of its own, of the configured size. */
    ghost predicate Valid()
      reads this
    {
      && (forall k :: k in windows ==> windows[k].buckets.Length == TotalBuckets(cfg))
      && (forall k, l :: k in windows && l in windows && k != l ==>
            windows[k] != windows[l] && windows[k].buckets != windows[l].buckets)
    }

    ghost function Abs(): Keys
      reads this, Repr()
    {
      map k | k in windows :: windows[k].Abs()
    }

    constructor (cfg: Config)
      ensures Valid() && Abs() == map[] && this.cfg == cfg
    {
      this.cfg := cfg;
      windows := map[];
    }

    method LoadOrStore(key: string, c: Clock)
      requires Valid()
      modifies this`windows
      ensures Valid() && key in windows && fresh(Repr() - old(Repr()))
      ensures Abs() == old(Abs())[key := LoadOrNew(cfg, old(Abs()), key, c)]
    {
      if key !in windows {
        var w := new Window(TotalBuckets(cfg), c.made);
        windows := windows[key := w];
      }
      assert Abs() == old(Abs())[key := LoadOrNew(cfg, old(Abs()), key, c)];
    }

    method AskStored(key: string, c: Clock) returns (admitted: bool)
      requires Valid() && key in windows
      modifies windows[key]
      ensures (Abs(), admitted) == AllowKey(cfg, old(Abs()), key, c)
    {
      admitted := windows[key].Ask(cfg, c);
      assert Abs() == AllowKey(cfg, old(Abs()), key, c).0;
    }

    method FailStored(key: string, c: Clock)
      requires Valid() && key in windows
      modifies windows[key], windows[key].buckets
      ensures old(Sized(cfg, Abs())) && Abs() == FailKey(cfg, old(Abs()), key, c)
    {
      windows[key].OnFailure(cfg, c);
      assert Abs() == FailKey(cfg, old(Abs()), key, c);
    }

    method AllowRequest(key: string, c: Clock) returns (admitted: bool)
      requires Valid()
      modifies this`windows, Repr()
      ensures Valid() && fresh(Repr() - old(Repr()))
      ensures (Abs(), admitted) == AllowKey(cfg, old(Abs()), key, c)
    {
      LoadFirst(cfg, Abs(), key, c);
      LoadOrStore(key, c);
      admitted := AskStored(key, c);
    }

    method RecordSuccess(key: string, c: Clock)
      requires Valid()
      modifies Repr()
      ensures Valid() && windows == old(windows)
      ensures old(Sized(cfg, Abs())) && Abs() == SucceedKey(cfg, old(Abs()), key, c)
    {
      if key in windows {
        windows[key].OnSuccess(cfg, c);
      }
      assert Abs() == SucceedKey(cfg, old(Abs()), key, c);
    }

    method RecordFailure(key: string, c: Clock)
      requires Valid()
      modifies this`windows, Repr()
      ensures Valid() && fresh(Repr() - old(Repr()))
      ensures old(Sized(cfg, Abs())) && Abs() == FailKey(cfg, old(Abs()), key, c)
    {
      LoadFirst(cfg, Abs(), key, c);
      LoadOrStore(key, c);
      FailStored(key, c);
    }

    method GetState(key: string) returns (s: State)
      requires Valid()
      ensures s == if key in Abs() then Abs()[key].state else Closed
    {
      s := if key in windows then windows[key].state else Closed;
    }
  }
}
