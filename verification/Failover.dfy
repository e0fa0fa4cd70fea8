// The failover procedure: the selected key of the model, its other keys, then keys of the models in
// its fallback chain, each behind the circuit breaker, until one execution succeeds.
module Failover {
  import opened Common
  import opened Router

  /** What the procedure does to the outside, in order. */
  datatype Event =
    | Refused(key: string)
    | Admitted(key: string)
    | Executed(key: string, ok: bool)
    | Recorded(key: string, ok: bool)

  /** Everything the procedure does not decide, as functions of what it has done so far: the breaker's
      answer, the executor's outcome, the random draw for a model, and what other requests have
      meanwhile done to the round-robin cursors. */
  datatype Env = Env(admits: (seq<Event>, string) -> bool,
                     succeeds: (seq<Event>, string) -> bool,
                     draw: (seq<Event>, string) -> nat,
                     others: (seq<Event>, Cursors) -> Cursors)

  datatype World = World(rr: Cursors, trace: seq<Event>)

  /** Ask the breaker, execute, and record the outcome. */
  function Try(env: Env, trace: seq<Event>, key: string): (seq<Event>, bool) {
    if !env.admits(trace, key) then (trace + [Refused(key)], false)
    else
      var ok := env.succeeds(trace + [Admitted(key)], key);
      (trace + [Admitted(key), Executed(key, ok), Recorded(key, ok)], ok)
  }

  function SelectIn(rules: Rules, env: Env, w: World, model: string): (Cursors, Option<ApiKey>)
    requires Drawables(rules)
  {
    Select(rules, env.others(w.trace, w.rr), model, env.draw(w.trace, model))
  }

  /** Select a key of `model` and try it. */
  function TrySelected(rules: Rules, env: Env, w: World, model: string): (World, bool)
    requires Drawables(rules)
  {
    var (rr, k) := SelectIn(rules, env, w, model);
    if k.None? then (World(rr, w.trace), false)
    else
      var (trace, ok) := Try(env, w.trace, k.value.key);
      (World(rr, trace), ok)
  }

  /** Try the active ones among the keys from index `i` on. */
  function TryBackups(env: Env, w: World, keys: seq<ApiKey>, i: nat): (World, bool)
    requires i <= |keys|
    decreases |keys| - i
  {
    if i == |keys| then (w, false)
    else if keys[i].status != Active then TryBackups(env, w, keys, i + 1)
    else
      var (trace, ok) := Try(env, w.trace, keys[i].key);
      if ok then (World(w.rr, trace), true) else TryBackups(env, World(w.rr, trace), keys, i + 1)
  }

  /** The entries of the chain that the third (not `last`) or the fourth (`last`) level uses. */
  predicate Uses(f: Fallback, last: bool) {
    if last then f.level == 3 else f.level >= 2
  }

  function TryChain(rules: Rules, env: Env, w: World, chain: seq<Fallback>, last: bool, i: nat): (World, bool)
    requires Drawables(rules) && i <= |chain|
    decreases |chain| - i
  {
    if i == |chain| then (w, false)
    else if !Uses(chain[i], last) then TryChain(rules, env, w, chain, last, i + 1)
    else
      var (w', ok) := TrySelected(rules, env, w, chain[i].model);
      if ok then (w', true) else TryChain(rules, env, w', chain, last, i + 1)
  }

  function Failover(rules: Rules, env: Env, w: World, model: string): (World, bool)
    requires Drawables(rules)
  {
    var (w1, ok1) := TrySelected(rules, env, w, model);
    if ok1 then (w1, true)
    else if model !in rules then (w1, false)
    else
      var (w2, ok2) := TryBackups(env, w1, rules[model].keys, if rules[model].keys == [] then 0 else 1);
      if ok2 then (w2, true)
      else
        var (w3, ok3) := TryChain(rules, env, w2, rules[model].chain, false, 0);
        if ok3 then (w3, true) else TryChain(rules, env, w3, rules[model].chain, true, 0)
  }

  class FailoverExecutor {
    const rm: RouteManager
    const env: Env
    var trace: seq<Event>

    constructor (rm: RouteManager, env: Env)
      ensures this.rm == rm && this.env == env && trace == []
    {
      this.rm, this.env, trace := rm, env, [];
    }

    ghost function Now(): World
      reads this, rm
    {
      World(rm.roundRobin, trace)
    }

    method Attempt(key: string) returns (ok: bool)
      modifies this
      ensures (trace, ok) == Try(env, old(trace), key)
    {
      if !env.admits(trace, key) {
        trace := trace + [Refused(key)];
        return false;
      }
      ghost var before := trace;
      trace := trace + [Admitted(key)];
      ok := env.succeeds(trace, key);
      trace := trace + [Executed(key, ok)];
      trace := trace + [Recorded(key, ok)];
      assert trace == before + [Admitted(key), Executed(key, ok), Recorded(key, ok)];
    }

    method AttemptSelected(model: string) returns (ok: bool)
      requires Drawables(rm.rules)
      modifies this, rm
      ensures (Now(), ok) == TrySelected(rm.rules, env, old(Now()), model)
    {
      rm.roundRobin := env.others(trace, rm.roundRobin);
      var k := rm.SelectAPIKey(model, env.draw(trace, model));
      if k.None? {
        return false;
      }
      ok := Attempt(k.value.key);
    }

    method TryBackupKeys(model: string) returns (ok: bool)
      requires model in rm.rules
      modifies this
      ensures var keys := rm.rules[model].keys;
              (Now(), ok) == TryBackups(env, old(Now()), keys, if keys == [] then 0 else 1)
    {
      var keys := rm.rules[model].keys;
      var i := 1;
      while i < |keys|
        invariant i >= 1
        invariant keys != [] ==> i <= |keys| && TryBackups(env, old(Now()), keys, 1) == TryBackups(env, Now(), keys, i)
        invariant keys == [] ==> Now() == old(Now())
      {
        if keys[i].status == Active {
          ok := Attempt(keys[i].key);
          if ok {
            return;
          }
        }
        i := i + 1;
      }
      return false;
    }

    method TryFallbacks(model: string, last: bool) returns (ok: bool)
      requires Drawables(rm.rules) && model in rm.rules
      modifies this, rm
      ensures (Now(), ok) == TryChain(rm.rules, env, old(Now()), rm.rules[model].chain, last, 0)
    {
      var chain := rm.rules[model].chain;
      for i := 0 to |chain|
        invariant TryChain(rm.rules, env, old(Now()), chain, last, 0) == TryChain(rm.rules, env, Now(), chain, last, i)
      {
        if !Uses(chain[i], last) {
          continue;
        }
        ok := AttemptSelected(chain[i].model);
        if ok {
          return;
        }
      }
      return false;
    }

    /** A missing rule makes every level fail. */
    method ExecuteWithFailover(model: string) returns (ok: bool)
      requires Drawables(rm.rules)
      modifies this, rm
      ensures (Now(), ok) == Failover(rm.rules, env, old(Now()), model)
    {
      ok := AttemptSelected(model);
      if ok || model !in rm.rules {
        return;
      }
      ok := TryBackupKeys(model);
      if ok {
        return;
      }
      ok := TryFallbacks(model, false);
      if ok {
        return;
      }
      ok := TryFallbacks(model, true);
    }
  }

  // ---------------------------------------------------------------------------
  // The shape of the trace

  /** Where one thread stands between its events; Wrong once it has broken the pattern. */
  datatype Phase = Idle | Holding(key: string) | Ran(key: string, ok: bool) | Wrong

  function Next(p: Phase, e: Event): Phase {
    match (p, e)
    case (Idle, Refused(_)) => Idle
    case (Idle, Admitted(k)) => Holding(k)
    case (Holding(k), Executed(k', ok)) => if k == k' then Ran(k, ok) else Wrong
    case (Ran(k, ok), Recorded(k', ok')) => if k == k' && ok == ok' then Idle else Wrong
    case _ => Wrong
  }

  function PhaseAfter(p: Phase, trace: seq<Event>): Phase {
    if trace == [] then p else Next(PhaseAfter(p, trace[..|trace| - 1]), trace[|trace| - 1])
  }

  predicate Win(e: Event) {
    e.Recorded? && e.ok
  }

  /** Whole refusals and admit-execute-record triples on one key with one outcome, and no success. */
  ghost predicate AllLost(trace: seq<Event>) {
    PhaseAfter(Idle, trace) == Idle && NoWin(trace)
  }

  ghost predicate NoWin(trace: seq<Event>) {
    forall e :: e in trace ==> !Win(e)
  }

  /** The same, except that the last event is the record of a success. */
  ghost predicate WonLast(trace: seq<Event>) {
    && PhaseAfter(Idle, trace) == Idle && trace != []
    && Win(trace[|trace| - 1])
    && NoWin(trace[..|trace| - 1])
  }

  ghost predicate Ends(trace: seq<Event>, ok: bool) {
    if ok then WonLast(trace) else AllLost(trace)
  }

  function Runs(trace: seq<Event>): nat {
    if trace == [] then 0 else Runs(trace[..|trace| - 1]) + if trace[|trace| - 1].Executed? then 1 else 0
  }

  lemma {:induction false} Snoc(trace: seq<Event>, e: Event)
    ensures PhaseAfter(Idle, trace + [e]) == Next(PhaseAfter(Idle, trace), e)
    ensures Runs(trace + [e]) == Runs(trace) + if e.Executed? then 1 else 0
    ensures NoWin(trace + [e]) <==> NoWin(trace) && !Win(e)
  {
    assert e in trace + [e];
    assert forall f :: f in trace + [e] <==> f in trace || f == e;
    assert (trace + [e])[..|trace|] == trace;
  }

  lemma {:induction false} AttemptEnds(trace: seq<Event>, key: string, ok: bool)
    requires AllLost(trace)
    ensures var t := trace + [Admitted(key), Executed(key, ok), Recorded(key, ok)];
            Ends(t, ok) && Runs(t) == Runs(trace) + 1 && Executed(key, ok) in t
  {
    hide NoWin, PhaseAfter, Runs;
    var t1 := trace + [Admitted(key)];
    var t2 := t1 + [Executed(key, ok)];
    var t := t2 + [Recorded(key, ok)];
    Snoc(trace, Admitted(key));
    Snoc(t1, Executed(key, ok));
    Snoc(t2, Recorded(key, ok));
    assert t == trace + [Admitted(key), Executed(key, ok), Recorded(key, ok)];
    assert t[..|t| - 1] == t2;
    assert t[|trace| + 1] == Executed(key, ok);
  }

  lemma {:induction false} TryEnds(env: Env, trace: seq<Event>, key: string)
    requires AllLost(trace)
    ensures var (trace', ok) := Try(env, trace, key);
            && Ends(trace', ok)
            && trace <= trace'
            && Runs(trace') <= Runs(trace) + 1
            && (!ok ==> Refused(key) in trace' || Executed(key, false) in trace')
  {
    hide NoWin, PhaseAfter, Runs;
    if env.admits(trace, key) {
      AttemptEnds(trace, key, env.succeeds(trace + [Admitted(key)], key));
    } else {
      Snoc(trace, Refused(key));
      assert (trace + [Refused(key)])[|trace|] == Refused(key);
    }
  }

  /** Refused by its breaker, or executed without success. */
  predicate Tried(trace: seq<Event>, key: string) {
    Refused(key) in trace || Executed(key, false) in trace
  }

  lemma TriedStays(trace: seq<Event>, trace': seq<Event>, key: string)
    requires trace <= trace' && Tried(trace, key)
    ensures Tried(trace', key)
  {
    assert forall e :: e in trace ==> e in trace';
  }

  lemma SelectedEnds(rules: Rules, env: Env, w: World, model: string)
    requires Drawables(rules) && AllLost(w.trace)
    ensures var (w', ok) := TrySelected(rules, env, w, model);
            && Ends(w'.trace, ok)
            && w.trace <= w'.trace
            && Runs(w'.trace) <= Runs(w.trace) + 1
            && (model !in rules || rules[model].keys == [] ==> w'.trace == w.trace && !ok)
            && (!ok ==> SomeTried(rules, w'.trace, model))
  {
    var (rr, k) := SelectIn(rules, env, w, model);
    if k.Some? {
      TryEnds(env, w.trace, k.value.key);
      assert k.value in rules[model].keys && k.value.status == Active;
      assert Select(rules, env.others(w.trace, w.rr), model, env.draw(w.trace, model)).1 == Some(k.value);
      assert Selectable(rules, model, k.value);
    }
  }

  /** Some state of the cursors and some draw have the model's balancer choose `k`. */
  ghost predicate Selectable(rules: Rules, model: string, k: ApiKey)
    requires Drawables(rules)
  {
    exists rr, draw :: Select(rules, rr, model, draw).1 == Some(k)
  }

  /** If the model has an active key, one of its active keys that its balancer can choose has been tried. */
  ghost predicate SomeTried(rules: Rules, trace: seq<Event>, model: string)
    requires Drawables(rules)
  {
    model in rules && ActiveKeys(rules[model].keys) != [] ==>
      exists k :: k in rules[model].keys && k.status == Active && Selectable(rules, model, k) && Tried(trace, k.key)
  }

  lemma SomeTriedStays(rules: Rules, trace: seq<Event>, trace': seq<Event>, model: string)
    requires Drawables(rules) && trace <= trace' && SomeTried(rules, trace, model)
    ensures SomeTried(rules, trace', model)
  {
    if model in rules && ActiveKeys(rules[model].keys) != [] {
      var k :| k in rules[model].keys && k.status == Active && Selectable(rules, model, k) && Tried(trace, k.key);
      TriedStays(trace, trace', k.key);
    }
  }

  lemma {:induction false} BackupsEnd(env: Env, w: World, keys: seq<ApiKey>, i: nat)
    requires i <= |keys| && AllLost(w.trace)
    ensures var (w', ok) := TryBackups(env, w, keys, i);
            && Ends(w'.trace, ok)
            && w.trace <= w'.trace
            && Runs(w'.trace) <= Runs(w.trace) + |keys| - i
            && (!ok ==> forall j :: i <= j < |keys| && keys[j].status == Active ==> Tried(w'.trace, keys[j].key))
    decreases |keys| - i
  {
    if i < |keys| {
      if keys[i].status != Active {
        BackupsEnd(env, w, keys, i + 1);
      } else {
        var (trace, ok) := Try(env, w.trace, keys[i].key);
        TryEnds(env, w.trace, keys[i].key);
        if !ok {
          BackupsEnd(env, World(w.rr, trace), keys, i + 1);
          TriedStays(trace, TryBackups(env, w, keys, i).0.trace, keys[i].key);
        }
      }
    }
  }

  function Used(chain: seq<Fallback>, last: bool, i: nat): nat
    requires i <= |chain|
    decreases |chain| - i
  {
    if i == |chain| then 0 else Used(chain, last, i + 1) + if Uses(chain[i], last) then 1 else 0
  }

  lemma {:induction false} ChainEnds(rules: Rules, env: Env, w: World, chain: seq<Fallback>, last: bool, i: nat)
    requires Drawables(rules) && i <= |chain| && AllLost(w.trace)
    ensures var (w', ok) := TryChain(rules, env, w, chain, last, i);
            && Ends(w'.trace, ok)
            && w.trace <= w'.trace
            && Runs(w'.trace) <= Runs(w.trace) + Used(chain, last, i)
            && (!ok ==> forall j :: i <= j < |chain| && Uses(chain[j], last) ==>
                 SomeTried(rules, w'.trace, chain[j].model))
    decreases |chain| - i
  {
    if i < |chain| {
      if !Uses(chain[i], last) {
        ChainEnds(rules, env, w, chain, last, i + 1);
      } else {
        var (w1, ok) := TrySelected(rules, env, w, chain[i].model);
        SelectedEnds(rules, env, w, chain[i].model);
        if !ok {
          ChainEnds(rules, env, w1, chain, last, i + 1);
          SomeTriedStays(rules, w1.trace, TryChain(rules, env, w, chain, last, i).0.trace, chain[i].model);
        }
      }
    }
  }

  function Executions(rules: Rules, model: string): nat {
    if model !in rules then 0
    else |rules[model].keys| + Used(rules[model].chain, false, 0) + Used(rules[model].chain, true, 0)
  }

  lemma {:induction false} ActiveAfterFirst(keys: seq<ApiKey>, k: ApiKey)
    requires k in keys && k.status == Active
    ensures k == ActiveKeys(keys)[0] || exists j :: 1 <= j < |keys| && keys[j] == k
  {
    var j :| 0 <= j < |keys| && keys[j] == k;
    if j == 0 {
      FirstActive(keys);
    }
  }

  lemma {:induction false} FirstActive(keys: seq<ApiKey>)
    requires keys != [] && keys[0].status == Active
    ensures ActiveKeys(keys) != [] && ActiveKeys(keys)[0] == keys[0]
  {
    if |keys| > 1 {
      FirstActive(keys[..|keys| - 1]);
    }
  }

  ghost predicate BackupsTried(trace: seq<Event>, keys: seq<ApiKey>) {
    forall j :: 1 <= j < |keys| && keys[j].status == Active ==> Tried(trace, keys[j].key)
  }

  ghost predicate ChainTried(rules: Rules, trace: seq<Event>, chain: seq<Fallback>)
    requires Drawables(rules)
  {
    forall j :: 0 <= j < |chain| && Uses(chain[j], false) ==> SomeTried(rules, trace, chain[j].model)
  }

  lemma KeysTriedStay(trace: seq<Event>, trace': seq<Event>, rule: Rule)
    requires trace <= trace'
    ensures BackupsTried(trace, rule.keys) ==> BackupsTried(trace', rule.keys)
  {
    forall key | Tried(trace, key)
      ensures Tried(trace', key)
    {
      TriedStays(trace, trace', key);
    }
  }

  lemma ChainTriedStays(rules: Rules, trace: seq<Event>, trace': seq<Event>, chain: seq<Fallback>)
    requires Drawables(rules) && trace <= trace' && ChainTried(rules, trace, chain)
    ensures ChainTried(rules, trace', chain)
  {
    forall j | 0 <= j < |chain| && Uses(chain[j], false)
      ensures SomeTried(rules, trace', chain[j].model)
    {
      SomeTriedStays(rules, trace, trace', chain[j].model);
    }
  }

  /** The four levels one after the other. */
  lemma FailoverSteps(rules: Rules, env: Env, rr: Cursors, model: string)
    requires Drawables(rules)
    ensures var (w, ok) := Failover(rules, env, World(rr, []), model);
            && Ends(w.trace, ok)
            && Runs(w.trace) <= Executions(rules, model)
            && (!ok && model in rules ==>
                 && BackupsTried(w.trace, rules[model].keys)
                 && SomeTried(rules, w.trace, model)
                 && ChainTried(rules, w.trace, rules[model].chain))
  {
    hide Ends, TrySelected, TryBackups, TryChain;
    var w0 := World(rr, []);
    var (w1, ok1) := TrySelected(rules, env, w0, model);
    SelectedEnds(rules, env, w0, model);
    if !ok1 && model in rules {
      LostIsEnd(w1.trace);
      var rule := rules[model];
      var from := if rule.keys == [] then 0 else 1;
      var (w2, ok2) := TryBackups(env, w1, rule.keys, from);
      BackupsEnd(env, w1, rule.keys, from);
      SomeTriedStays(rules, w1.trace, w2.trace, model);
      if !ok2 {
        LostIsEnd(w2.trace);
        var (w3, ok3) := TryChain(rules, env, w2, rule.chain, false, 0);
        ChainEnds(rules, env, w2, rule.chain, false, 0);
        KeysTriedStay(w2.trace, w3.trace, rule);
        SomeTriedStays(rules, w2.trace, w3.trace, model);
        if !ok3 {
          LostIsEnd(w3.trace);
          var (w4, ok4) := TryChain(rules, env, w3, rule.chain, true, 0);
          ChainEnds(rules, env, w3, rule.chain, true, 0);
          KeysTriedStay(w3.trace, w4.trace, rule);
          SomeTriedStays(rules, w3.trace, w4.trace, model);
          ChainTriedStays(rules, w3.trace, w4.trace, rule.chain);
        }
      }
    }
  }

  lemma LostIsEnd(trace: seq<Event>)
    ensures Ends(trace, false) <==> AllLost(trace)
  {
  }

  /** For every breaker, executor, draw and interference: the trace is made of refusals and of complete
      admit-execute-record triples; the call succeeds exactly when the last thing it did is record its
      one success; and the executions are bounded by the rule. */
  lemma FailoverTrace(rules: Rules, env: Env, rr: Cursors, model: string)
    requires Drawables(rules)
    ensures var (w, ok) := Failover(rules, env, World(rr, []), model);
            && Ends(w.trace, ok)
            && (ok <==> w.trace != [] && Win(w.trace[|w.trace| - 1]))
            && Runs(w.trace) <= Executions(rules, model)
  {
    FailoverSteps(rules, env, rr, model);
    var (w, ok) := Failover(rules, env, World(rr, []), model);
    if !ok && w.trace != [] {
      assert w.trace[|w.trace| - 1] in w.trace;
    }
  }

  /** When the call fails, every active key of the model other than the one at index 0 has been refused
      or has failed; and so has one key that the balancer can choose, for the model and for every
      fallback model that has an active key. */
  lemma FailoverTriesAll(rules: Rules, env: Env, rr: Cursors, model: string)
    requires Drawables(rules) && model in rules
    ensures var (w, ok) := Failover(rules, env, World(rr, []), model);
            !ok ==>
              && BackupsTried(w.trace, rules[model].keys)
              && (rules[model].balancer == First ==>
                   forall k :: k in rules[model].keys && k.status == Active ==> Tried(w.trace, k.key))
              && SomeTried(rules, w.trace, model)
              && (forall f :: f in rules[model].chain && f.level >= 2 ==> SomeTried(rules, w.trace, f.model))
  {
    FailoverSteps(rules, env, rr, model);
    var (w, ok) := Failover(rules, env, World(rr, []), model);
    var keys := rules[model].keys;
    if !ok && rules[model].balancer == First {
      forall k | k in keys && k.status == Active
        ensures Tried(w.trace, k.key)
      {
        ActiveAfterFirst(keys, k);
      }
    }
    if !ok {
      forall f | f in rules[model].chain && f.level >= 2
        ensures SomeTried(rules, w.trace, f.model)
      {
        var j :| 0 <= j < |rules[model].chain| && rules[model].chain[j] == f;
        assert Uses(rules[model].chain[j], false);
      }
    }
  }

  function TwoKeys(): Rules {
    map["m" := Rule([ApiKey("a", 1, Active), ApiKey("b", 1, Active)], [], RoundRobin)]
  }

  lemma {:induction false} BothActive(a: ApiKey, b: ApiKey)
    requires a.status == Active && b.status == Active
    ensures ActiveKeys([a, b]) == [a, b]
  {
    assert [a, b][..1] == [a] && [a][..0] == [];
    assert ActiveKeys([a]) == [] + [a];
  }

  lemma SelectsSecond(draw: nat)
    ensures Select(TwoKeys(), map["m" := 1], "m", draw) == (map["m" := 0], Some(ApiKey("b", 1, Active)))
  {
    var a, b := ApiKey("a", 1, Active), ApiKey("b", 1, Active);
    BothActive(a, b);
    hide ActiveKeys;
    assert Advance(map["m" := 1], "m", 2) == map["m" := 0];
  }

  /** Under round robin the key at index 0 can be left out altogether: with the cursor on the second of
      two keys, that one is tried twice. */
  lemma RoundRobinSkipsFirst(env: Env)
    requires (forall t, k :: !env.admits(t, k)) && (forall t, rr :: env.others(t, rr) == rr)
    ensures Failover(TwoKeys(), env, World(map["m" := 1], []), "m")
            == (World(map["m" := 0], [Refused("b"), Refused("b")]), false)
  {
    var rules, once, twice := TwoKeys(), [Refused("b")], [Refused("b"), Refused("b")];
    var keys := rules["m"].keys;
    SelectsSecond(env.draw([], "m"));
    RefusedTry(env, [], "b");
    RefusedTry(env, once, "b");
    assert [] + once == once && once + once == twice;
    hide Select, ActiveKeys, Try;
    var w1, w2 := World(map["m" := 0], once), World(map["m" := 0], twice);
    assert env.others([], map["m" := 1]) == map["m" := 1];
    assert TrySelected(rules, env, World(map["m" := 1], []), "m") == (w1, false);
    assert TryBackups(env, w2, keys, 2) == (w2, false);
    assert TryBackups(env, w1, keys, 1) == (w2, false);
    hide TrySelected, TryBackups;
    assert TryChain(rules, env, w2, [], false, 0) == (w2, false);
    assert TryChain(rules, env, w2, [], true, 0) == (w2, false);
  }

  lemma RefusedTry(env: Env, trace: seq<Event>, key: string)
    requires !env.admits(trace, key)
    ensures Try(env, trace, key) == (trace + [Refused(key)], false)
  {
  }

  lemma {:induction false} WrongIsForever(p: Phase, trace: seq<Event>, i: nat)
    requires i <= |trace| && PhaseAfter(p, trace[..i]) == Wrong
    ensures PhaseAfter(p, trace) == Wrong
  {
    if i < |trace| {
      assert trace[..|trace| - 1][..i] == trace[..i];
      WrongIsForever(p, trace[..|trace| - 1], i);
    } else {
      assert trace[..i] == trace;
    }
  }

  /** At no point of a failover call has its thread left the pattern. */
  lemma FailoverKeepsToPattern(rules: Rules, env: Env, rr: Cursors, model: string, i: nat)
    requires Drawables(rules) && i <= |Failover(rules, env, World(rr, []), model).0.trace|
    ensures PhaseAfter(Idle, Failover(rules, env, World(rr, []), model).0.trace[..i]) != Wrong
  {
    FailoverTrace(rules, env, rr, model);
    var trace := Failover(rules, env, World(rr, []), model).0.trace;
    if PhaseAfter(Idle, trace[..i]) == Wrong {
      WrongIsForever(Idle, trace, i);
    }
  }
}
