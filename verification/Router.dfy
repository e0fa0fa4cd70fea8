// Choosing an API key for a model among the active keys of its rule.
module Router {
  import opened Common

  datatype Status = Active | Cooldown | Failed

  datatype ApiKey = ApiKey(key: string, weight: int, status: Status)

  /** Any other strategy name falls to the default, the first active key. */
  datatype Balancer = RoundRobin | Random | Weighted | First

  datatype Fallback = Fallback(level: int, model: string)

  datatype Rule = Rule(keys: seq<ApiKey>, chain: seq<Fallback>, balancer: Balancer)

  type Rules = map<string, Rule>

  /** Where each model's round robin stands; a model not yet seen stands at 0. */
  type Cursors = map<string, nat>

  function ActiveKeys(keys: seq<ApiKey>): (r: seq<ApiKey>)
    ensures forall k :: k in r <==> k in keys && k.status == Active
  {
    if keys == [] then []
    else
      var last := keys[|keys| - 1];
      ActiveKeys(keys[..|keys| - 1]) + if last.status == Active then [last] else []
  }

  function Weight(keys: seq<ApiKey>, n: nat): int
    requires n <= |keys|
  {
    if n == 0 then 0 else Weight(keys, n - 1) + keys[n - 1].weight
  }

  /** The first index from `i` on whose running weight exceeds the draw, else the last index. */
  function Pick(keys: seq<ApiKey>, draw: int, i: nat): (r: nat)
    requires i < |keys|
    ensures i <= r < |keys|
    decreases |keys| - i
  {
    if draw < Weight(keys, i + 1) || i == |keys| - 1 then i else Pick(keys, draw, i + 1)
  }

  /** `draw` stands for the random number: `draw % n` for a number below `n`. */
  function WeightedIndex(keys: seq<ApiKey>, draw: nat): (r: nat)
    requires keys != [] && Weight(keys, |keys|) >= 0
    ensures r < |keys|
  {
    var total := Weight(keys, |keys|);
    if total == 0 then draw % |keys| else Pick(keys, draw % total, 0)
  }

  function Cursor(rr: Cursors, model: string): nat {
    if model in rr then rr[model] else 0
  }

  function Advance(rr: Cursors, model: string, n: nat): Cursors
    requires n > 0
  {
    rr[model := (Cursor(rr, model) + 1) % n]
  }

  /** rand.Intn does not take a negative total. */
  predicate Drawable(rule: Rule) {
    rule.balancer == Weighted ==> Weight(ActiveKeys(rule.keys), |ActiveKeys(rule.keys)|) >= 0
  }

  predicate Drawables(rules: Rules) {
    forall m :: m in rules ==> Drawable(rules[m])
  }

  function Select(rules: Rules, rr: Cursors, model: string, draw: nat): (r: (Cursors, Option<ApiKey>))
    requires model in rules ==> Drawable(rules[model])
    ensures r.1.Some? <==> model in rules && ActiveKeys(rules[model].keys) != []
    ensures r.1.Some? ==> r.1.value in rules[model].keys && r.1.value.status == Active
  {
    if model !in rules || ActiveKeys(rules[model].keys) == [] then (rr, None)
    else
      var keys := ActiveKeys(rules[model].keys);
      match rules[model].balancer
      case RoundRobin => (Advance(rr, model, |keys|), Some(keys[Cursor(rr, model) % |keys|]))
      case Random => (rr, Some(keys[draw % |keys|]))
      case Weighted => (rr, Some(keys[WeightedIndex(keys, draw)]))
      case First => (rr, Some(keys[0]))
  }

  /** How many of the first `n` keys are active. */
  function ActiveCount(keys: seq<ApiKey>, n: nat): nat
    requires n <= |keys|
  {
    if n == 0 then 0 else ActiveCount(keys, n - 1) + if keys[n - 1].status == Active then 1 else 0
  }

  /** The active keys, once each and in their order: each stands behind those before it. */
  lemma {:induction false} ActiveKeysAt(keys: seq<ApiKey>, i: nat)
    requires i < |keys| && keys[i].status == Active
    ensures |ActiveKeys(keys)| == ActiveCount(keys, |keys|)
    ensures ActiveCount(keys, i) < |ActiveKeys(keys)| && ActiveKeys(keys)[ActiveCount(keys, i)] == keys[i]
  {
    var init := keys[..|keys| - 1];
    ActiveLength(keys);
    ActiveLength(init);
    CountOfPrefix(keys, init, i);
    CountOfPrefix(keys, init, |init|);
    if i < |keys| - 1 {
      ActiveKeysAt(init, i);
    }
  }

  lemma {:induction false} CountOfPrefix(keys: seq<ApiKey>, init: seq<ApiKey>, n: nat)
    requires init <= keys && n <= |init|
    ensures ActiveCount(keys, n) == ActiveCount(init, n)
  {
    if n > 0 {
      CountOfPrefix(keys, init, n - 1);
    }
  }

  lemma {:induction false} ActiveLength(keys: seq<ApiKey>)
    ensures |ActiveKeys(keys)| == ActiveCount(keys, |keys|)
  {
    if keys != [] {
      var init := keys[..|keys| - 1];
      ActiveLength(init);
      CountOfPrefix(keys, init, |init|);
    }
  }

  /** The draw, taken below the total weight, falls to the first key whose running weight is above it; when
      all weights cancel it falls to its own index. */
  ghost predicate FallsTo(keys: seq<ApiKey>, draw: nat, i: nat)
    requires keys != [] && Weight(keys, |keys|) >= 0
  {
    var total := Weight(keys, |keys|);
    && i < |keys|
    && (if total == 0 then i == draw % |keys|
        else draw % total < Weight(keys, i + 1) && forall n: nat :: 0 < n <= i ==> Weight(keys, n) <= draw % total)
  }

  lemma {:induction false} PickIsFirst(keys: seq<ApiKey>, d: int, i: nat)
    requires i < |keys| && d < Weight(keys, |keys|)
    ensures d < Weight(keys, Pick(keys, d, i) + 1)
    ensures forall n: nat :: i < n <= Pick(keys, d, i) ==> Weight(keys, n) <= d
    decreases |keys| - i
  {
    if !(d < Weight(keys, i + 1) || i == |keys| - 1) {
      PickIsFirst(keys, d, i + 1);
    }
  }

  lemma {:induction false} DrawFalls(keys: seq<ApiKey>, draw: nat)
    requires keys != [] && Weight(keys, |keys|) >= 0
    ensures FallsTo(keys, draw, WeightedIndex(keys, draw))
  {
    var total := Weight(keys, |keys|);
    if total > 0 {
      PickIsFirst(keys, draw % total, 0);
    }
  }

  class RouteManager {
    const rules: Rules
    var roundRobin: Cursors

    constructor (rules: Rules)
      ensures this.rules == rules && roundRobin == map[]
    {
      this.rules, roundRobin := rules, map[];
    }

    method RoundRobinSelect(model: string, keys: seq<ApiKey>) returns (k: ApiKey)
      requires keys != []
      modifies this
      ensures k == keys[Cursor(old(roundRobin), model) % |keys|]
      ensures roundRobin == Advance(old(roundRobin), model, |keys|)
    {
      var index := if model in roundRobin then roundRobin[model] else 0;
      k := keys[index % |keys|];
      roundRobin := roundRobin[model := (index + 1) % |keys|];
    }

    method WeightedSelect(keys: seq<ApiKey>, draw: nat) returns (k: ApiKey)
      requires keys != [] && Weight(keys, |keys|) >= 0
      ensures k == keys[WeightedIndex(keys, draw)]
      ensures exists i: nat :: FallsTo(keys, draw, i) && k == keys[i]
    {
      DrawFalls(keys, draw);
      var totalWeight := 0;
      for i := 0 to |keys|
        invariant totalWeight == Weight(keys, i)
      {
        totalWeight := totalWeight + keys[i].weight;
      }
      if totalWeight == 0 {
        return keys[draw % |keys|];
      }
      var randVal := draw % totalWeight;
      var cumWeight := 0;
      for i := 0 to |keys|
        invariant cumWeight == Weight(keys, i)
        invariant i < |keys| ==> WeightedIndex(keys, draw) == Pick(keys, randVal, i)
        invariant i == |keys| ==> randVal >= cumWeight
      {
        cumWeight := cumWeight + keys[i].weight;
        if randVal < cumWeight {
          return keys[i];
        }
      }
      // the draw is below the total weight, so the loop has returned
      assert false;
    }

    method SelectAPIKey(model: string, draw: nat) returns (r: Option<ApiKey>)
      requires model in rules ==> Drawable(rules[model])
      modifies this
      ensures (roundRobin, r) == Select(rules, old(roundRobin), model, draw)
    {
      if model !in rules {
        return None;
      }
      var rule := rules[model];
      var activeKeys := [];
      for i := 0 to |rule.keys|
        invariant activeKeys == ActiveKeys(rule.keys[..i])
      {
        assert rule.keys[..i + 1][..i] == rule.keys[..i];
        if rule.keys[i].status == Active {
          activeKeys := activeKeys + [rule.keys[i]];
        }
      }
      assert rule.keys[..|rule.keys|] == rule.keys;
      if |activeKeys| == 0 {
        return None;
      }
      match rule.balancer
      case RoundRobin =>
        var k := RoundRobinSelect(model, activeKeys);
        r := Some(k);
      case Random =>
        r := Some(activeKeys[draw % |activeKeys|]);
      case Weighted =>
        var k := WeightedSelect(activeKeys, draw);
        r := Some(k);
      case First =>
        r := Some(activeKeys[0]);
    }
  }

  // ---------------------------------------------------------------------------
  // Weights

  ghost predicate NonNegative(keys: seq<ApiKey>) {
    forall i :: 0 <= i < |keys| ==> keys[i].weight >= 0
  }

  /** The draws below the total weight that select key `i`. */
  ghost function DrawsFor(keys: seq<ApiKey>, i: nat): set<nat>
    requires i < |keys| && Weight(keys, |keys|) >= 0
  {
    set d: nat | d < Weight(keys, |keys|) && WeightedIndex(keys, d) == i
  }

  lemma {:induction false} SmallDraw(keys: seq<ApiKey>, d: nat)
    requires keys != [] && d < Weight(keys, |keys|)
    ensures WeightedIndex(keys, d) == Pick(keys, d, 0)
  {
    UniqueRemainder(d, Weight(keys, |keys|), 0, d);
  }

  function Interval(a: nat, b: nat): (r: set<nat>)
    requires a <= b
    ensures forall d :: d in r <==> a <= d < b
    ensures |r| == b - a
    decreases b - a
  {
    if a == b then {} else Interval(a, b - 1) + {b - 1}
  }

  lemma {:induction false} WeightGrows(keys: seq<ApiKey>, i: nat, j: nat)
    requires NonNegative(keys) && i <= j <= |keys|
    ensures Weight(keys, i) <= Weight(keys, j)
  {
    if i < j {
      WeightGrows(keys, i, j - 1);
    }
  }

  lemma {:induction false} PickIsInterval(keys: seq<ApiKey>, d: int, from: nat, i: nat)
    requires NonNegative(keys) && from < |keys| && i < |keys|
    requires Weight(keys, from) <= d < Weight(keys, |keys|)
    ensures Pick(keys, d, from) == i <==> from <= i && Weight(keys, i) <= d < Weight(keys, i + 1)
    decreases |keys| - from
  {
    if d < Weight(keys, from + 1) {
      if i > from {
        WeightGrows(keys, from + 1, i);
      }
    } else if from < |keys| - 1 {
      PickIsInterval(keys, d, from + 1, i);
    }
  }

  lemma {:induction false} DrawsAreInterval(keys: seq<ApiKey>, i: nat, d: nat)
    requires NonNegative(keys) && i < |keys| && Weight(keys, |keys|) > 0
    ensures 0 <= Weight(keys, i) <= Weight(keys, i + 1) <= Weight(keys, |keys|)
    ensures d in DrawsFor(keys, i) <==> d in Interval(Weight(keys, i), Weight(keys, i + 1))
  {
    WeightGrows(keys, 0, i);
    WeightGrows(keys, i, i + 1);
    WeightGrows(keys, i + 1, |keys|);
    hide WeightedIndex, NonNegative, Pick;
    if d < Weight(keys, |keys|) {
      SmallDraw(keys, d);
      PickIsInterval(keys, d, 0, i);
    }
  }

  lemma {:induction false} ExactDraws(keys: seq<ApiKey>, i: nat)
    requires NonNegative(keys) && i < |keys| && Weight(keys, |keys|) > 0
    ensures |DrawsFor(keys, i)| == keys[i].weight
  {
    hide WeightedIndex, NonNegative, DrawsFor;
    DrawsAreInterval(keys, i, 0);
    forall d: nat
      ensures d in DrawsFor(keys, i) <==> d in Interval(Weight(keys, i), Weight(keys, i + 1))
    {
      DrawsAreInterval(keys, i, d);
    }
    assert DrawsFor(keys, i) == Interval(Weight(keys, i), Weight(keys, i + 1));
    assert Weight(keys, i + 1) == Weight(keys, i) + keys[i].weight;
  }

  /** Out of a positive total, every key is selected by exactly as many draws as it weighs, just when
      no weight is negative. */
  lemma {:induction false} WeightsAreExactIff(keys: seq<ApiKey>)
    requires keys != [] && Weight(keys, |keys|) > 0
    ensures (forall i :: 0 <= i < |keys| ==> |DrawsFor(keys, i)| == keys[i].weight) <==> NonNegative(keys)
  {
    if NonNegative(keys) {
      forall i | 0 <= i < |keys|
        ensures |DrawsFor(keys, i)| == keys[i].weight
      {
        ExactDraws(keys, i);
      }
    }
  }

  /** Weighted selection takes the active key that the draw falls to. */
  lemma DrawFallsToSelected(rules: Rules, rr: Cursors, model: string, draw: nat)
    requires Drawables(rules) && model in rules && rules[model].balancer == Weighted
    requires ActiveKeys(rules[model].keys) != []
    ensures exists i: nat :: FallsTo(ActiveKeys(rules[model].keys), draw, i)
              && Select(rules, rr, model, draw) == (rr, Some(ActiveKeys(rules[model].keys)[i]))
  {
    hide ActiveKeys;
    DrawFalls(ActiveKeys(rules[model].keys), draw);
  }

  /** With random selection, or weights that cancel, each index is drawn by exactly one of as many draws as
      there are active keys; the default takes the first. */
  lemma EvenDraws(rules: Rules, rr: Cursors, model: string, draw: nat)
    requires Drawables(rules) && model in rules && draw < |ActiveKeys(rules[model].keys)|
    ensures var active, rule := ActiveKeys(rules[model].keys), rules[model];
            var k := Select(rules, rr, model, draw).1;
            && (rule.balancer == Random ==> k == Some(active[draw]))
            && (rule.balancer == Weighted && Weight(active, |active|) == 0 ==> k == Some(active[draw]))
            && (rule.balancer == First ==> k == Some(active[0]))
  {
    var n := |ActiveKeys(rules[model].keys)|;
    UniqueRemainder(draw, n, 0, draw);
  }

  // ---------------------------------------------------------------------------
  // Round robin

  datatype Call = Call(model: string, draw: nat)

  /** The cursors after selections for any models, one after the other. */
  function CursorsAfter(rules: Rules, rr: Cursors, calls: seq<Call>): Cursors
    requires Drawables(rules)
  {
    if calls == [] then rr
    else
      var call := calls[|calls| - 1];
      Select(rules, CursorsAfter(rules, rr, calls[..|calls| - 1]), call.model, call.draw).0
  }

  /** The keys selected for `model` along the way. */
  function Selected(rules: Rules, rr: Cursors, calls: seq<Call>, model: string): seq<ApiKey>
    requires Drawables(rules)
  {
    if calls == [] then []
    else
      var init, call := calls[..|calls| - 1], calls[|calls| - 1];
      var k := Select(rules, CursorsAfter(rules, rr, init), call.model, call.draw).1;
      Selected(rules, rr, init, model) + if call.model == model && k.Some? then [k.value] else []
  }

  /** The model's balancer goes round, and has keys to go round. */
  predicate Rotates(rules: Rules, model: string) {
    model in rules && rules[model].balancer == RoundRobin && ActiveKeys(rules[model].keys) != []
  }

  lemma ModSucc(v: nat, n: nat)
    requires n > 0
    ensures (v % n + 1) % n == (v + 1) % n
  {
    assert v + 1 == n * (v / n) + (v % n + 1);
    if v % n + 1 == n {
      assert v + 1 == n * (v / n + 1) + 0;
      UniqueRemainder(v + 1, n, v / n + 1, 0);
      UniqueRemainder(n, n, 1, 0);
    } else {
      UniqueRemainder(v + 1, n, v / n, v % n + 1);
      UniqueRemainder(v % n + 1, n, 0, v % n + 1);
    }
  }

  lemma CursorStep(c: nat, w: nat, n: nat)
    requires n > 0 && c % n == w % n
    ensures ((c + 1) % n) % n == (w + 1) % n
  {
    ModSucc(c, n);
    ModSucc(w, n);
    UniqueRemainder((c + 1) % n, n, 0, (c + 1) % n);
  }

  /** Where a walk round `n` keys from `s` stands after `k` steps. */
  function At(s: nat, k: nat, n: nat): (i: nat)
    requires n > 0
    ensures i < n
  {
    (s + k) % n
  }

  lemma SelectRotates(rules: Rules, rr: Cursors, call: Call, model: string)
    requires Drawables(rules) && Rotates(rules, model)
    ensures var active := ActiveKeys(rules[model].keys);
            var (rr', k) := Select(rules, rr, call.model, call.draw);
            if call.model == model
            then
              && k == Some(active[At(Cursor(rr, model), 0, |active|)])
              && Cursor(rr', model) == At(Cursor(rr, model), 1, |active|)
            else Cursor(rr', model) == Cursor(rr, model)
  {
    hide ActiveKeys;
  }

  /** `sel` goes round `active` from `s`, and the cursor `c` says where it goes on. */
  ghost predicate Walks(active: seq<ApiKey>, s: nat, sel: seq<ApiKey>, c: nat) {
    && active != []
    && (forall k :: 0 <= k < |sel| ==> sel[k] == active[At(s, k, |active|)])
    && At(c, 0, |active|) == At(s, |sel|, |active|)
  }

  lemma WalksOn(active: seq<ApiKey>, s: nat, sel: seq<ApiKey>, c: nat)
    requires Walks(active, s, sel, c)
    ensures Walks(active, s, sel + [active[At(c, 0, |active|)]], At(c, 1, |active|))
  {
    CursorStep(c, s + |sel|, |active|);
  }

  /** Selections for other models, by whatever balancers, make no difference: those for `model` walk
      round its active keys from where its cursor stood, even beyond their number. */
  lemma {:induction false} SelectionsWalk(rules: Rules, rr: Cursors, calls: seq<Call>, model: string)
    requires Drawables(rules) && Rotates(rules, model)
    ensures Walks(ActiveKeys(rules[model].keys), Cursor(rr, model), Selected(rules, rr, calls, model),
                  Cursor(CursorsAfter(rules, rr, calls), model))
  {
    hide Select, ActiveKeys, At, Cursor, Walks;
    var active := ActiveKeys(rules[model].keys);
    if calls == [] {
      NothingWalks(active, Cursor(rr, model));
    } else {
      var init, call := calls[..|calls| - 1], calls[|calls| - 1];
      SelectionsWalk(rules, rr, init, model);
      var before, sel := CursorsAfter(rules, rr, init), Selected(rules, rr, init, model);
      SelectRotates(rules, before, call, model);
      if call.model == model {
        WalksOn(active, Cursor(rr, model), sel, Cursor(before, model));
      } else {
        assert Selected(rules, rr, calls, model) == sel;
      }
    }
  }

  lemma NothingWalks(active: seq<ApiKey>, s: nat)
    requires active != []
    ensures Walks(active, s, [], s)
  {
  }

  function Times(picks: seq<nat>, i: nat): nat {
    if picks == [] then 0
    else Times(picks[..|picks| - 1], i) + if picks[|picks| - 1] == i then 1 else 0
  }

  lemma Offset(s: nat, k: nat, i: nat, n: nat)
    requires n > 0 && i < n
    ensures (i - s) % n == k % n <==> i == (s + k) % n
  {
    var a, b := (i - s) % n, k % n;
    assert i - s == n * ((i - s) / n) + a && k == n * (k / n) + b;
    if a == b {
      var q := k / n - (i - s) / n;
      assert s + k == n * q + i;
      UniqueRemainder(s + k, n, q, i);
    } else if i == (s + k) % n {
      var q := (s + k) / n;
      assert s + k == n * q + i;
      assert i - s == n * (k / n - q) + b;
      UniqueRemainder(i - s, n, k / n - q, b);
    }
  }

  lemma StepDiv(k: nat, n: nat)
    requires n > 0
    ensures if k % n + 1 < n then (k + 1) / n == k / n && (k + 1) % n == k % n + 1
            else (k + 1) / n == k / n + 1 && (k + 1) % n == 0
  {
    assert k == n * (k / n) + k % n;
    if k % n + 1 < n {
      UniqueRemainder(k + 1, n, k / n, k % n + 1);
    } else {
      assert k + 1 == n * (k / n + 1) + 0;
      UniqueRemainder(k + 1, n, k / n + 1, 0);
    }
  }

  /** How often a walk from `s` has met `i`: once a full round, and once more if this round has. */
  lemma {:induction false} WalkCounts(picks: seq<nat>, s: nat, n: nat, i: nat)
    requires n > 0 && i < n
    requires forall k :: 0 <= k < |picks| ==> picks[k] == At(s, k, n)
    ensures Times(picks, i) == |picks| / n + if (i - s) % n < |picks| % n then 1 else 0
  {
    if picks != [] {
      var k := |picks| - 1;
      WalkCounts(picks[..k], s, n, i);
      Offset(s, k, i, n);
      StepDiv(k, n);
    } else {
      UniqueRemainder(0, n, 0, 0);
    }
  }

  /** The positions of a walk of `len` steps round `n` keys. */
  function Walk(s: nat, n: nat, len: nat): (r: seq<nat>)
    requires n > 0
    ensures |r| == len
  {
    seq(len, k requires k >= 0 => At(s, k, n))
  }

  lemma {:induction false} ShareOfRound(s: nat, n: nat, len: nat, i: nat)
    requires i < n
    ensures var times := Times(Walk(s, n, len), i);
            len / n <= times <= len / n + 1 && (len % n == 0 ==> times == len / n)
  {
    WalkCounts(Walk(s, n, len), s, n, i);
  }

  /** After `k` selections for a model, each of its `n` active keys has been taken `k / n` times rounded
      down or once more, and exactly `k / n` times when `n` divides `k`. */
  lemma {:induction false} RoundRobinIsFair(rules: Rules, rr: Cursors, calls: seq<Call>, model: string, i: nat)
    requires Drawables(rules) && Rotates(rules, model) && i < |ActiveKeys(rules[model].keys)|
    ensures var active, sel := ActiveKeys(rules[model].keys), Selected(rules, rr, calls, model);
            var n := |active|;
            var at := Walk(Cursor(rr, model), n, |sel|);
            && (forall k :: 0 <= k < |sel| ==> sel[k] == active[at[k]])
            && |sel| / n <= Times(at, i) <= |sel| / n + 1
            && (|sel| % n == 0 ==> Times(at, i) == |sel| / n)
  {
    SelectionsWalk(rules, rr, calls, model);
    hide At, ActiveKeys, Selected, Times;
    ShareOfRound(Cursor(rr, model), |ActiveKeys(rules[model].keys)|, |Selected(rules, rr, calls, model)|, i);
  }

  lemma Wraps(s: nat, k: nat, n: nat)
    requires n > 0 && k < n
    ensures At(s, k, n) == if s % n + k < n then s % n + k else s % n + k - n
  {
    assert s + k == n * (s / n) + (s % n + k);
    if s % n + k < n {
      UniqueRemainder(s + k, n, s / n, s % n + k);
    } else {
      assert s + k == n * (s / n + 1) + (s % n + k - n);
      UniqueRemainder(s + k, n, s / n + 1, s % n + k - n);
    }
  }

  lemma RoundIsTurned(active: seq<ApiKey>, round: seq<ApiKey>, s: nat)
    requires active != [] && |round| == |active|
    requires forall k :: 0 <= k < |round| ==> round[k] == active[At(s, k, |active|)]
    ensures multiset(round) == multiset(active)
  {
    var n := |active|;
    var r := s % n;
    forall k | 0 <= k < n
      ensures round[k] == (active[r..] + active[..r])[k]
    {
      Wraps(s, k, n);
    }
    assert round == active[r..] + active[..r];
    assert active == active[..r] + active[r..];
  }

  lemma AtLater(s: nat, a: nat, k: nat, n: nat)
    requires n > 0
    ensures At(s, a + k, n) == At(s + a, k, n)
  {
  }

  lemma AnyRound(active: seq<ApiKey>, sel: seq<ApiKey>, s: nat, a: nat)
    requires active != [] && a + |active| <= |sel|
    requires forall k :: 0 <= k < |sel| ==> sel[k] == active[At(s, k, |active|)]
    ensures multiset(sel[a..a + |active|]) == multiset(active)
  {
    hide At;
    var round := sel[a..a + |active|];
    forall k | 0 <= k < |round|
      ensures round[k] == active[At(s + a, k, |active|)]
    {
      AtLater(s, a, k, |active|);
      assert round[k] == sel[a + k];
    }
    RoundIsTurned(active, round, s + a);
  }

  /** Any `n` selections in a row for a model with `n` active keys take each of them exactly once. */
  lemma {:induction false} EachOnceARound(rules: Rules, rr: Cursors, calls: seq<Call>, model: string, a: nat)
    requires Drawables(rules) && Rotates(rules, model)
    requires a + |ActiveKeys(rules[model].keys)| <= |Selected(rules, rr, calls, model)|
    ensures var active := ActiveKeys(rules[model].keys);
            multiset(Selected(rules, rr, calls, model)[a..a + |active|]) == multiset(active)
  {
    hide ActiveKeys, Selected, At, CursorsAfter;
    SelectionsWalk(rules, rr, calls, model);
    AnyRound(ActiveKeys(rules[model].keys), Selected(rules, rr, calls, model), Cursor(rr, model), a);
  }
}
