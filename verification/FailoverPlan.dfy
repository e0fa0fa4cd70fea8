// What a failover call tries, in order: a plan read off the rules alone, which every call follows.
module FailoverPlan {
  import opened Router
  import opened Failover

  // ---------------------------------------------------------------------------
  // The plan

  /** The strings of the model's active keys; none for a model without a rule. */
  function KeysOf(rules: Rules, model: string): set<string> {
    if model in rules then set k | k in rules[model].keys && k.status == Active :: k.key else {}
  }

  /** One try of some active key of the model, if it has one. */
  function OneOf(rules: Rules, model: string): seq<set<string>> {
    if KeysOf(rules, model) == {} then [] else [KeysOf(rules, model)]
  }

  /** One try of each active key from index `i` on. */
  function EachFrom(keys: seq<ApiKey>, i: nat): seq<set<string>>
    decreases |keys| - i
  {
    if i >= |keys| then []
    else (if keys[i].status == Active then [{keys[i].key}] else []) + EachFrom(keys, i + 1)
  }

  /** One try for each entry of level two or more, or only of level three, from entry `i` on. */
  function OneEach(rules: Rules, chain: seq<Fallback>, third: bool, i: nat): seq<set<string>>
    decreases |chain| - i
  {
    if i >= |chain| then []
    else (if (if third then chain[i].level == 3 else chain[i].level >= 2) then OneOf(rules, chain[i].model) else [])
         + OneEach(rules, chain, third, i + 1)
  }

  /** The model's own key; its backups; the entries of level two and more; those of level three again. */
  function Plan(rules: Rules, model: string): seq<set<string>> {
    if model !in rules then []
    else
      var rule := rules[model];
      OneOf(rules, model) + EachFrom(rule.keys, 1)
      + OneEach(rules, rule.chain, false, 0) + OneEach(rules, rule.chain, true, 0)
  }

  // ---------------------------------------------------------------------------
  // What was tried

  /** The keys that were refused or executed, in order. */
  function TriedKeys(trace: seq<Event>): seq<string> {
    if trace == [] then []
    else
      var e := trace[|trace| - 1];
      TriedKeys(trace[..|trace| - 1]) + if e.Refused? || e.Executed? then [e.key] else []
  }

  /** The tries that did not succeed. */
  function LostTries(trace: seq<Event>): nat {
    if trace == [] then 0
    else
      var e := trace[|trace| - 1];
      LostTries(trace[..|trace| - 1]) + if e.Refused? || (e.Executed? && !e.ok) then 1 else 0
  }

  /** Each try is one of its place in the plan; all of it is tried without success, or some try succeeds. */
  ghost predicate Follows(plan: seq<set<string>>, tried: seq<string>, lost: nat, ok: bool) {
    && |tried| <= |plan| && (forall i :: 0 <= i < |tried| ==> tried[i] in plan[i])
    && |tried| == lost + (if ok then 1 else 0)
    && (!ok ==> |tried| == |plan|)
  }

  /** What happened between two traces, as far as tries go. */
  ghost predicate Adds(before: seq<Event>, after: seq<Event>, tried: seq<string>, lost: nat) {
    TriedKeys(after) == TriedKeys(before) + tried && LostTries(after) == LostTries(before) + lost
  }

  /** From one trace to the other a part of the procedure follows its plan. */
  ghost predicate Fulfils(plan: seq<set<string>>, before: seq<Event>, after: seq<Event>, ok: bool) {
    exists tried, lost :: Adds(before, after, tried, lost) && Follows(plan, tried, lost, ok)
  }

  lemma FollowsThen(p: seq<set<string>>, q: seq<set<string>>, t: seq<string>, u: seq<string>, l: nat, m: nat, ok: bool)
    requires Follows(p, t, l, false) && Follows(q, u, m, ok)
    ensures Follows(p + q, t + u, l + m, ok)
  {
  }

  lemma FollowsFirst(p: seq<set<string>>, q: seq<set<string>>, t: seq<string>, l: nat)
    requires Follows(p, t, l, true)
    ensures Follows(p + q, t, l, true)
  {
  }

  lemma AddsThen(a: seq<Event>, b: seq<Event>, c: seq<Event>, t: seq<string>, u: seq<string>, l: nat, m: nat)
    requires Adds(a, b, t, l) && Adds(b, c, u, m)
    ensures Adds(a, c, t + u, l + m)
  {
    hide TriedKeys, LostTries;
    assert TriedKeys(a) + t + u == TriedKeys(a) + (t + u);
  }

  /** One part after another that has failed. */
  lemma RunsThen(p: seq<set<string>>, q: seq<set<string>>, a: seq<Event>, b: seq<Event>, c: seq<Event>, ok: bool)
    requires Fulfils(p, a, b, false) && Fulfils(q, b, c, ok)
    ensures Fulfils(p + q, a, c, ok)
  {
    hide Adds, Follows;
    var t, l :| Adds(a, b, t, l) && Follows(p, t, l, false);
    var u, m :| Adds(b, c, u, m) && Follows(q, u, m, ok);
    AddsThen(a, b, c, t, u, l, m);
    FollowsThen(p, q, t, u, l, m, ok);
  }

  /** A part that has succeeded ends the whole. */
  lemma RunsFirst(p: seq<set<string>>, q: seq<set<string>>, a: seq<Event>, b: seq<Event>)
    requires Fulfils(p, a, b, true)
    ensures Fulfils(p + q, a, b, true)
  {
    hide Adds, Follows;
    var t, l :| Adds(a, b, t, l) && Follows(p, t, l, true);
    FollowsFirst(p, q, t, l);
  }

  lemma RunsNothing(a: seq<Event>)
    ensures Fulfils([], a, a, false)
  {
    hide TriedKeys, LostTries;
    assert TriedKeys(a) + [] == TriedKeys(a);
    assert Adds(a, a, [], 0) && Follows([], [], 0, false);
  }

  // ---------------------------------------------------------------------------
  // The procedure follows the plan

  lemma {:induction false} TriedNext(trace: seq<Event>, e: Event)
    ensures TriedKeys(trace + [e]) == TriedKeys(trace) + if e.Refused? || e.Executed? then [e.key] else []
    ensures LostTries(trace + [e]) == LostTries(trace) + if e.Refused? || (e.Executed? && !e.ok) then 1 else 0
  {
    assert (trace + [e])[..|trace|] == trace;
  }

  lemma {:induction false} TryRuns(env: Env, trace: seq<Event>, key: string, keys: set<string>)
    requires key in keys
    ensures var (after, ok) := Try(env, trace, key);
            Fulfils([keys], trace, after, ok)
  {
    hide TriedKeys, LostTries;
    var (after, ok) := Try(env, trace, key);
    var lost := if ok then 0 else 1;
    assert Follows([keys], [key], lost, ok);
    if env.admits(trace, key) {
      var t1 := trace + [Admitted(key)];
      var t2 := t1 + [Executed(key, ok)];
      TriedNext(trace, Admitted(key));
      TriedNext(t1, Executed(key, ok));
      TriedNext(t2, Recorded(key, ok));
      assert after == t2 + [Recorded(key, ok)];
      assert TriedKeys(trace) + [] + [key] + [] == TriedKeys(trace) + [key];
    } else {
      TriedNext(trace, Refused(key));
    }
    assert Adds(trace, after, [key], lost);
  }

  lemma {:induction false} SelectedRuns(rules: Rules, env: Env, w: World, model: string)
    requires Drawables(rules)
    ensures var (w', ok) := TrySelected(rules, env, w, model);
            Fulfils(OneOf(rules, model), w.trace, w'.trace, ok)
  {
    var k := SelectIn(rules, env, w, model).1;
    hide Fulfils, Try, Select;
    if k.None? {
      RunsNothing(w.trace);
      assert KeysOf(rules, model) == {};
    } else {
      assert k.value.key in KeysOf(rules, model);
      TryRuns(env, w.trace, k.value.key, KeysOf(rules, model));
    }
  }

  lemma {:induction false} BackupsRun(env: Env, w: World, keys: seq<ApiKey>, i: nat)
    requires i <= |keys|
    ensures var (w', ok) := TryBackups(env, w, keys, i);
            Fulfils(EachFrom(keys, i), w.trace, w'.trace, ok)
    decreases |keys| - i
  {
    hide Fulfils, Try;
    if i == |keys| {
      RunsNothing(w.trace);
    } else if keys[i].status != Active {
      BackupsRun(env, w, keys, i + 1);
      assert [] + EachFrom(keys, i + 1) == EachFrom(keys, i + 1);
    } else {
      var (trace, ok) := Try(env, w.trace, keys[i].key);
      TryRuns(env, w.trace, keys[i].key, {keys[i].key});
      if ok {
        RunsFirst([{keys[i].key}], EachFrom(keys, i + 1), w.trace, trace);
      } else {
        var w1 := World(w.rr, trace);
        BackupsRun(env, w1, keys, i + 1);
        var (w', ok') := TryBackups(env, w1, keys, i + 1);
        RunsThen([{keys[i].key}], EachFrom(keys, i + 1), w.trace, trace, w'.trace, ok');
      }
    }
  }

  lemma {:induction false} ChainRuns(rules: Rules, env: Env, w: World, chain: seq<Fallback>, last: bool, i: nat)
    requires Drawables(rules) && i <= |chain|
    ensures var (w', ok) := TryChain(rules, env, w, chain, last, i);
            Fulfils(OneEach(rules, chain, last, i), w.trace, w'.trace, ok)
    decreases |chain| - i
  {
    hide Fulfils, TrySelected, OneOf;
    if i == |chain| {
      RunsNothing(w.trace);
    } else if !Uses(chain[i], last) {
      ChainRuns(rules, env, w, chain, last, i + 1);
      assert [] + OneEach(rules, chain, last, i + 1) == OneEach(rules, chain, last, i + 1);
    } else {
      var p, q := OneOf(rules, chain[i].model), OneEach(rules, chain, last, i + 1);
      var (w1, ok) := TrySelected(rules, env, w, chain[i].model);
      SelectedRuns(rules, env, w, chain[i].model);
      if ok {
        RunsFirst(p, q, w.trace, w1.trace);
      } else {
        ChainRuns(rules, env, w1, chain, last, i + 1);
        var (w', ok') := TryChain(rules, env, w1, chain, last, i + 1);
        RunsThen(p, q, w.trace, w1.trace, w'.trace, ok');
      }
    }
  }

  lemma {:induction false} FallbacksRun(rules: Rules, env: Env, w: World, chain: seq<Fallback>)
    requires Drawables(rules)
    ensures var (w3, ok3) := TryChain(rules, env, w, chain, false, 0);
            var (w4, ok4) := if ok3 then (w3, true) else TryChain(rules, env, w3, chain, true, 0);
            Fulfils(OneEach(rules, chain, false, 0) + OneEach(rules, chain, true, 0), w.trace, w4.trace, ok4)
  {
    hide Fulfils, TryChain, OneEach;
    var p, q := OneEach(rules, chain, false, 0), OneEach(rules, chain, true, 0);
    var (w3, ok3) := TryChain(rules, env, w, chain, false, 0);
    ChainRuns(rules, env, w, chain, false, 0);
    if ok3 {
      RunsFirst(p, q, w.trace, w3.trace);
    } else {
      ChainRuns(rules, env, w3, chain, true, 0);
      RunsThen(p, q, w.trace, w3.trace, TryChain(rules, env, w3, chain, true, 0).0.trace,
               TryChain(rules, env, w3, chain, true, 0).1);
    }
  }

  lemma {:induction false} NoBackups(env: Env, w: World, keys: seq<ApiKey>)
    ensures var (w', ok) := TryBackups(env, w, keys, if keys == [] then 0 else 1);
            Fulfils(EachFrom(keys, 1), w.trace, w'.trace, ok)
  {
    hide Fulfils;
    if keys == [] {
      RunsNothing(w.trace);
    } else {
      BackupsRun(env, w, keys, 1);
    }
  }

  lemma Grouped(a: seq<set<string>>, b: seq<set<string>>, c: seq<set<string>>, d: seq<set<string>>)
    ensures a + (b + (c + d)) == a + b + c + d
  {
  }

  lemma {:induction false} FailoverRuns(rules: Rules, env: Env, w: World, model: string)
    requires Drawables(rules)
    ensures var (w', ok) := Failover.Failover(rules, env, w, model);
            Fulfils(Plan(rules, model), w.trace, w'.trace, ok)
  {
    hide Fulfils, TrySelected, TryBackups, TryChain, OneEach, EachFrom;
    var (w1, ok1) := TrySelected(rules, env, w, model);
    SelectedRuns(rules, env, w, model);
    if model !in rules {
    } else {
      var rule := rules[model];
      var a, b := OneOf(rules, model), EachFrom(rule.keys, 1);
      var c, d := OneEach(rules, rule.chain, false, 0), OneEach(rules, rule.chain, true, 0);
      Grouped(a, b, c, d);
      if ok1 {
        RunsFirst(a, b + (c + d), w.trace, w1.trace);
      } else {
        var (w2, ok2) := TryBackups(env, w1, rule.keys, if rule.keys == [] then 0 else 1);
        NoBackups(env, w1, rule.keys);
        if ok2 {
          RunsFirst(b, c + d, w1.trace, w2.trace);
        } else {
          FallbacksRun(rules, env, w2, rule.chain);
          RunsThen(b, c + d, w1.trace, w2.trace, Failover.Failover(rules, env, w, model).0.trace,
                   Failover.Failover(rules, env, w, model).1);
        }
        RunsThen(a, b + (c + d), w.trace, w1.trace, Failover.Failover(rules, env, w, model).0.trace,
                 Failover.Failover(rules, env, w, model).1);
      }
    }
  }

  lemma {:induction false} FromStart(plan: seq<set<string>>, trace: seq<Event>, ok: bool)
    requires Fulfils(plan, [], trace, ok)
    ensures Follows(plan, TriedKeys(trace), LostTries(trace), ok)
  {
    var t, l :| Adds([], trace, t, l) && Follows(plan, t, l, ok);
    assert TriedKeys([]) == [] && LostTries([]) == 0;
    hide TriedKeys, LostTries, Follows;
    assert [] + t == t;
  }

  /** For every breaker, executor, draw and interference: the tries of a call are those of the plan, in its
      order, level after level; a call that fails has tried all of it, and one that succeeds stops with the
      try that did. */
  lemma {:induction false} FailoverFollowsPlan(rules: Rules, env: Env, rr: Cursors, model: string)
    requires Drawables(rules)
    ensures var (w, ok) := Failover.Failover(rules, env, World(rr, []), model);
            var tried, plan := TriedKeys(w.trace), Plan(rules, model);
            && |tried| <= |plan| && (forall i :: 0 <= i < |tried| ==> tried[i] in plan[i])
            && LostTries(w.trace) == (if ok then |tried| - 1 else |plan|)
            && (!ok ==> |tried| == |plan|)
  {
    FailoverRuns(rules, env, World(rr, []), model);
    hide Failover.Failover, Plan, TriedKeys, LostTries, Fulfils;
    var (w, ok) := Failover.Failover(rules, env, World(rr, []), model);
    FromStart(Plan(rules, model), w.trace, ok);
  }

  // ---------------------------------------------------------------------------
  // How long the plan is

  /** The active keys behind the first. */
  function Backups(keys: seq<ApiKey>): set<nat> {
    set i: nat | 1 <= i < |keys| && keys[i].status == Active
  }

  /** The chain entries of a level at least two, or of level three, whose model has an active key. */
  function Entries(rules: Rules, chain: seq<Fallback>, third: bool): set<nat> {
    set i: nat | i < |chain| && (if third then chain[i].level == 3 else chain[i].level >= 2)
                 && KeysOf(rules, chain[i].model) != {}
  }

  /** The members of a set from `i` on. */
  function From(s: set<nat>, i: nat): set<nat> {
    set j | j in s && i <= j
  }

  lemma FromNext(s: set<nat>, i: nat)
    ensures |From(s, i)| == |From(s, i + 1)| + if i in s then 1 else 0
  {
    assert From(s, i) == if i in s then From(s, i + 1) + {i} else From(s, i + 1);
  }

  function Actives(keys: seq<ApiKey>): set<nat> {
    set i: nat | i < |keys| && keys[i].status == Active
  }

  lemma {:induction false} EachFromLength(keys: seq<ApiKey>, i: nat)
    ensures |EachFrom(keys, i)| == |From(Actives(keys), i)|
    decreases |keys| - i
  {
    if i >= |keys| {
      assert From(Actives(keys), i) == {};
    } else {
      EachFromLength(keys, i + 1);
      hide From;
      FromNext(Actives(keys), i);
    }
  }

  lemma {:induction false} OneEachNext(rules: Rules, chain: seq<Fallback>, third: bool, i: nat)
    requires i < |chain|
    ensures |OneEach(rules, chain, third, i)|
            == |OneEach(rules, chain, third, i + 1)| + if i in Entries(rules, chain, third) then 1 else 0
  {
    hide KeysOf;
  }

  lemma {:induction false} OneEachLength(rules: Rules, chain: seq<Fallback>, third: bool, i: nat)
    ensures |OneEach(rules, chain, third, i)| == |From(Entries(rules, chain, third), i)|
    decreases |chain| - i
  {
    if i >= |chain| {
      assert From(Entries(rules, chain, third), i) == {};
    } else {
      OneEachNext(rules, chain, third, i);
      hide OneEach, Entries, From;
      OneEachLength(rules, chain, third, i + 1);
      FromNext(Entries(rules, chain, third), i);
    }
  }

  /** The number of tries of a call that fails. */
  lemma {:induction false} FailedTriesAre(rules: Rules, env: Env, rr: Cursors, model: string)
    requires Drawables(rules) && model in rules && !Failover.Failover(rules, env, World(rr, []), model).1
    ensures var rule := rules[model];
            LostTries(Failover.Failover(rules, env, World(rr, []), model).0.trace)
            == (if KeysOf(rules, model) == {} then 0 else 1) + |Backups(rule.keys)|
               + |Entries(rules, rule.chain, false)| + |Entries(rules, rule.chain, true)|
  {
    var rule := rules[model];
    FailoverFollowsPlan(rules, env, rr, model);
    EachFromLength(rule.keys, 1);
    OneEachLength(rules, rule.chain, false, 0);
    OneEachLength(rules, rule.chain, true, 0);
    hide Failover.Failover, EachFrom, OneEach, KeysOf, LostTries, Entries;
    assert From(Actives(rule.keys), 1) == Backups(rule.keys);
    assert From(Entries(rules, rule.chain, false), 0) == Entries(rules, rule.chain, false);
    assert From(Entries(rules, rule.chain, true), 0) == Entries(rules, rule.chain, true);
  }
}
