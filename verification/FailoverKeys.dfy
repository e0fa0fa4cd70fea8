// Exactly when a failed failover call is sure to have tried every active key of its model.
module FailoverKeys {
  import opened Common
  import opened Router
  import opened Failover

  /** Whatever the breaker, the executor, the draws and other requests do, a failed call has tried all
      active keys of the model. */
  ghost predicate AlwaysTriesAll(rules: Rules, model: string)
    requires Drawables(rules) && model in rules
  {
    forall env: Env, rr: Cursors :: TriesAllOrWins(rules, env, rr, model)
  }

  ghost predicate TriesAllOrWins(rules: Rules, env: Env, rr: Cursors, model: string)
    requires Drawables(rules) && model in rules
  {
    var (w, ok) := Failover.Failover(rules, env, World(rr, []), model);
    ok || forall k :: k in rules[model].keys && k.status == Active ==> Tried(w.trace, k.key)
  }

  /** The strings that draws below the total can lead to are all the first one. */
  predicate DrawsGive(active: seq<ApiKey>, key: string)
    requires active != []
  {
    forall d: nat :: d < Weight(active, |active|) ==> active[Pick(active, d, 0)].key == key
  }

  /** The balancer can only choose active keys with this string. */
  predicate OnlyChooses(rule: Rule, key: string) {
    var active := ActiveKeys(rule.keys);
    active != [] &&
    match rule.balancer
    case First => active[0].key == key
    case RoundRobin => forall i :: 0 <= i < |active| ==> active[i].key == key
    case Random => forall i :: 0 <= i < |active| ==> active[i].key == key
    case Weighted =>
      var total := Weight(active, |active|);
      if total <= 0 then forall i :: 0 <= i < |active| ==> active[i].key == key
      else DrawsGive(active, key)
  }

  /** The key at index 0 cannot be left out: it is not active, or another active key of the model has
      its string, or the balancer of the model or of a fallback model can only choose it. */
  predicate FirstIsReached(rules: Rules, model: string)
    requires model in rules
  {
    var keys, chain := rules[model].keys, rules[model].chain;
    || keys == [] || keys[0].status != Active
    || (exists j :: 1 <= j < |keys| && keys[j].status == Active && keys[j].key == keys[0].key)
    || OnlyChooses(rules[model], keys[0].key)
    || (exists f :: f in chain && f.level >= 2 && f.model in rules && OnlyChooses(rules[f.model], keys[0].key))
  }

  // ---------------------------------------------------------------------------
  // Enough

  lemma ChosenHasKey(rules: Rules, model: string, key: string, k: ApiKey)
    requires Drawables(rules) && model in rules && OnlyChooses(rules[model], key) && Selectable(rules, model, k)
    ensures k.key == key
  {
    var rr, draw :| Select(rules, rr, model, draw).1 == Some(k);
    hide ActiveKeys, Weight, Pick;
  }

  lemma OnlyChoosesIsTried(rules: Rules, trace: seq<Event>, model: string, key: string)
    requires Drawables(rules) && model in rules && OnlyChooses(rules[model], key)
    requires SomeTried(rules, trace, model)
    ensures Tried(trace, key)
  {
    var k :| k in rules[model].keys && k.status == Active && Selectable(rules, model, k) && Tried(trace, k.key);
    ChosenHasKey(rules, model, key, k);
  }

  lemma FirstReachedIsTried(rules: Rules, env: Env, rr: Cursors, model: string)
    requires Drawables(rules) && model in rules && FirstIsReached(rules, model)
    ensures TriesAllOrWins(rules, env, rr, model)
  {
    FailoverTriesAll(rules, env, rr, model);
    var (w, ok) := Failover.Failover(rules, env, World(rr, []), model);
    var keys := rules[model].keys;
    hide Failover.Failover, SomeTried, OnlyChooses, Tried, ActiveKeys;
    if !ok {
      forall k | k in keys && k.status == Active
        ensures Tried(w.trace, k.key)
      {
        var i :| 0 <= i < |keys| && keys[i] == k;
        if i == 0 {
          if OnlyChooses(rules[model], k.key) {
            OnlyChoosesIsTried(rules, w.trace, model, k.key);
          } else if f :| f in rules[model].chain && f.level >= 2 && f.model in rules
                         && OnlyChooses(rules[f.model], k.key) {
            OnlyChoosesIsTried(rules, w.trace, f.model, k.key);
          }
        }
      }
    }
  }

  // ---------------------------------------------------------------------------
  // Necessary

  lemma ModSmall(d: nat, n: nat)
    requires d < n
    ensures d % n == d
  {
    UniqueRemainder(d, n, 0, d);
  }

  /** With its cursor and its draw like this, the model is not given a key with the string. */
  ghost predicate ChoiceAvoids(rules: Rules, model: string, key: string, cursor: nat, draw: nat)
    requires Drawables(rules)
  {
    forall rr: Cursors :: model in rr && rr[model] == cursor ==>
      var k := Select(rules, rr, model, draw).1;
      k.Some? ==> k.value.key != key
  }

  lemma SomeChoiceAvoids(rules: Rules, model: string, key: string) returns (cursor: nat, draw: nat)
    requires Drawables(rules) && (model in rules ==> !OnlyChooses(rules[model], key))
    ensures ChoiceAvoids(rules, model, key, cursor, draw)
  {
    cursor, draw := 0, 0;
    if model in rules && ActiveKeys(rules[model].keys) != [] {
      var active := ActiveKeys(rules[model].keys);
      hide ActiveKeys, Weight, Pick;
      match rules[model].balancer
      case First =>
      case RoundRobin =>
        cursor :| cursor < |active| && active[cursor].key != key;
        ModSmall(cursor, |active|);
      case Random =>
        draw :| draw < |active| && active[draw].key != key;
        ModSmall(draw, |active|);
      case Weighted =>
        var total := Weight(active, |active|);
        if total <= 0 {
          draw :| draw < |active| && active[draw].key != key;
          ModSmall(draw, |active|);
        } else {
          draw :| draw < total && active[Pick(active, draw, 0)].key != key;
          ModSmall(draw, total);
        }
    }
  }

  ghost function Avoiding(rules: Rules, model: string, key: string): (c: (nat, nat))
    requires Drawables(rules)
    ensures (model in rules ==> !OnlyChooses(rules[model], key)) ==> ChoiceAvoids(rules, model, key, c.0, c.1)
  {
    if model in rules && OnlyChooses(rules[model], key) then (0, 0)
    else
      assert exists c: (nat, nat) :: ChoiceAvoids(rules, model, key, c.0, c.1) by {
        var cursor, draw := SomeChoiceAvoids(rules, model, key);
        assert ChoiceAvoids(rules, model, key, (cursor, draw).0, (cursor, draw).1);
      }
      var c: (nat, nat) :| ChoiceAvoids(rules, model, key, c.0, c.1);
      c
  }

  /** Nobody is admitted, and draws and cursors keep away from the string where they can. */
  ghost function Adversary(rules: Rules, key: string): Env
    requires Drawables(rules)
  {
    Env((t, k) => false, (t, k) => false,
        (t, m) => Avoiding(rules, m, key).1,
        (t, rr) => map m | m in rules :: Avoiding(rules, m, key).0)
  }

  /** Only refusals, of other strings. */
  ghost predicate OthersRefused(trace: seq<Event>, key: string) {
    forall e :: e in trace ==> e.Refused? && e.key != key
  }

  lemma RefusedAvoids(rules: Rules, trace: seq<Event>, key: string, k: string)
    requires Drawables(rules) && OthersRefused(trace, key) && k != key
    ensures var (trace', ok) := Try(Adversary(rules, key), trace, k);
            OthersRefused(trace', key) && !ok
  {
  }

  lemma SelectedAvoids(rules: Rules, w: World, model: string, key: string)
    requires Drawables(rules) && OthersRefused(w.trace, key) && (model in rules ==> !OnlyChooses(rules[model], key))
    ensures var (w', ok) := TrySelected(rules, Adversary(rules, key), w, model);
            OthersRefused(w'.trace, key) && !ok
  {
    var env := Adversary(rules, key);
    var (rr, k) := SelectIn(rules, env, w, model);
    hide Select, OnlyChooses, Try;
    if k.Some? {
      assert model in rules;
      assert ChoiceAvoids(rules, model, key, Avoiding(rules, model, key).0, Avoiding(rules, model, key).1);
      assert env.others(w.trace, w.rr)[model] == Avoiding(rules, model, key).0;
      RefusedAvoids(rules, w.trace, key, k.value.key);
    }
  }

  lemma {:induction false} BackupsAvoid(rules: Rules, w: World, keys: seq<ApiKey>, i: nat, key: string)
    requires Drawables(rules) && OthersRefused(w.trace, key) && i <= |keys|
    requires forall j :: i <= j < |keys| && keys[j].status == Active ==> keys[j].key != key
    ensures var (w', ok) := TryBackups(Adversary(rules, key), w, keys, i);
            OthersRefused(w'.trace, key) && !ok
    decreases |keys| - i
  {
    hide Adversary, OthersRefused, Try;
    if i < |keys| {
      if keys[i].status != Active {
        BackupsAvoid(rules, w, keys, i + 1, key);
      } else {
        RefusedAvoids(rules, w.trace, key, keys[i].key);
        BackupsAvoid(rules, World(w.rr, Try(Adversary(rules, key), w.trace, keys[i].key).0), keys, i + 1, key);
      }
    }
  }

  lemma {:induction false} ChainAvoids(rules: Rules, w: World, chain: seq<Fallback>, last: bool, i: nat, key: string)
    requires Drawables(rules) && OthersRefused(w.trace, key) && i <= |chain|
    requires forall f :: f in chain && f.level >= 2 && f.model in rules ==> !OnlyChooses(rules[f.model], key)
    ensures var (w', ok) := TryChain(rules, Adversary(rules, key), w, chain, last, i);
            OthersRefused(w'.trace, key) && !ok
    decreases |chain| - i
  {
    hide Adversary, OthersRefused, TrySelected, OnlyChooses;
    if i < |chain| {
      if !Uses(chain[i], last) {
        ChainAvoids(rules, w, chain, last, i + 1, key);
      } else {
        assert chain[i] in chain && chain[i].level >= 2;
        SelectedAvoids(rules, w, chain[i].model, key);
        ChainAvoids(rules, TrySelected(rules, Adversary(rules, key), w, chain[i].model).0, chain, last, i + 1, key);
      }
    }
  }

  lemma AdversaryLeavesOutFirst(rules: Rules, model: string)
    requires Drawables(rules) && model in rules && !FirstIsReached(rules, model)
    ensures !TriesAllOrWins(rules, Adversary(rules, rules[model].keys[0].key), map[], model)
  {
    var rule, key := rules[model], rules[model].keys[0].key;
    var env, w0 := Adversary(rules, key), World(map[], []);
    hide Adversary, TrySelected, TryBackups, TryChain, OnlyChooses;
    SelectedAvoids(rules, w0, model, key);
    var w1 := TrySelected(rules, env, w0, model).0;
    BackupsAvoid(rules, w1, rule.keys, 1, key);
    var w2 := TryBackups(env, w1, rule.keys, 1).0;
    ChainAvoids(rules, w2, rule.chain, false, 0, key);
    var w3 := TryChain(rules, env, w2, rule.chain, false, 0).0;
    ChainAvoids(rules, w3, rule.chain, true, 0, key);
    var w4 := TryChain(rules, env, w3, rule.chain, true, 0).0;
    assert Failover.Failover(rules, env, w0, model) == (w4, false);
    assert !Tried(w4.trace, key);
    assert rule.keys[0] in rule.keys;
  }

  /** A failed call is sure to have tried every active key of its model if and only if the key at index 0
      cannot be left out; the others never can. */
  lemma TriesAllIff(rules: Rules, model: string)
    requires Drawables(rules) && model in rules
    ensures AlwaysTriesAll(rules, model) <==> FirstIsReached(rules, model)
  {
    hide TriesAllOrWins, FirstIsReached;
    if FirstIsReached(rules, model) {
      forall env: Env, rr: Cursors
        ensures TriesAllOrWins(rules, env, rr, model)
      {
        FirstReachedIsTried(rules, env, rr, model);
      }
    } else {
      AdversaryLeavesOutFirst(rules, model);
    }
  }

  // ---------------------------------------------------------------------------
  // The condition on the model's own balancer

  ghost predicate Apart(keys: seq<ApiKey>) {
    forall i, j :: 0 <= i < j < |keys| && keys[i].status == Active && keys[j].status == Active ==>
      keys[i].key != keys[j].key
  }

  lemma {:induction false} ActiveApart(keys: seq<ApiKey>)
    requires Apart(keys)
    ensures Apart(ActiveKeys(keys))
  {
    if keys != [] {
      var init, last := keys[..|keys| - 1], keys[|keys| - 1];
      ActiveApart(init);
      var active, all := ActiveKeys(init), ActiveKeys(keys);
      forall i, j | 0 <= i < j < |all|
        ensures all[i].key != all[j].key
      {
        assert all[i] == active[i] && active[i] in init;
        if j == |active| {
          var k :| 0 <= k < |init| && init[k] == active[i];
          assert keys[k] == active[i] && keys[|keys| - 1] == last;
        } else {
          assert all[j] == active[j] && active[j] in active && active[i] in active;
        }
      }
    }
  }

  lemma {:induction false} DrawsGiveFirstIff(active: seq<ApiKey>)
    requires active != [] && Weight(active, |active|) > 0
    requires forall i, j :: 0 <= i < j < |active| ==> active[i].key != active[j].key
    ensures DrawsGive(active, active[0].key) <==> |active| == 1 || active[0].weight >= Weight(active, |active|)
  {
    var total := Weight(active, |active|);
    assert Weight(active, 0) == 0 && Weight(active, 1) == active[0].weight;
    if |active| == 1 || active[0].weight >= total {
      forall d: nat | d < total
        ensures active[Pick(active, d, 0)].key == active[0].key
      {
        assert Pick(active, d, 0) == 0;
      }
    } else {
      var d: nat := total - 1;
      assert Pick(active, d, 0) > 0;
    }
  }

  /** Where the active keys have different strings, a balancer can only choose the first of them when it
      is the default one, or there is no other, or it is the weighted one and the first key has all of a
      positive total weight. */
  lemma {:induction false} OnlyChoosesFirstIff(rule: Rule)
    requires Drawable(rule) && Apart(rule.keys) && ActiveKeys(rule.keys) != []
    ensures var active := ActiveKeys(rule.keys);
            OnlyChooses(rule, active[0].key) <==>
            || rule.balancer == First
            || |active| == 1
            || (rule.balancer == Weighted && active[0].weight >= Weight(active, |active|) > 0)
  {
    var active := ActiveKeys(rule.keys);
    ActiveApart(rule.keys);
    assert forall k :: k in active ==> k.status == Active;
    assert forall i :: 0 <= i < |active| ==> active[i] in active;
    hide ActiveKeys, Weight, Pick;
    if rule.balancer == Weighted && Weight(active, |active|) > 0 {
      DrawsGiveFirstIff(active);
    } else if rule.balancer != First && |active| > 1 {
      assert active[1].key != active[0].key;
    }
  }
}
