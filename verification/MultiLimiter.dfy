// One request is checked against three buckets in turn - user, app, model - and each check that
// passes has charged its bucket already: there is no way back when a later one fails.
module MultiLimiter {
  import opened Common
  import opened Limiter

  type Store = map<string, Stored>

  function BuildKey(d: Dimension): string {
    "ratelimit:" + d.kind + ":" + d.identifier
  }

  predicate Kind(kind: string) {
    kind == "user" || kind == "app" || kind == "model"
  }

  lemma KeysAreApart(a: Dimension, b: Dimension)
    requires Kind(a.kind) && Kind(b.kind) && BuildKey(a) == BuildKey(b)
    ensures a.kind == b.kind && a.identifier == b.identifier
  {
    var ka, kb := BuildKey(a), BuildKey(b);
    assert ka[10] == a.kind[0] && kb[10] == b.kind[0];
    assert a.kind == b.kind;
    assert a.identifier == ka[|"ratelimit:"| + |a.kind| + 1..];
    assert b.identifier == kb[|"ratelimit:"| + |b.kind| + 1..];
  }

  function Find(store: Store, key: string): Option<Stored> {
    if key in store then Some(store[key]) else None
  }

  /** One atomic script run on the bucket of `d`. */
  function AllowOn(store: Store, d: Dimension, tokens: int, at: int): (Store, bool) {
    var (s, ok) := Script(Find(store, BuildKey(d)), d.capacity, d.rate, Call(tokens, at));
    (if ok then store[BuildKey(d) := s.value] else store, ok)
  }

  predicate Enough(store: Store, d: Dimension, tokens: int, at: int) {
    Level(Find(store, BuildKey(d)), d.capacity, d.rate, at) >= tokens as real
  }

  datatype Limits = Limits(userCap: int, userRate: real, appCap: int, appRate: real, modelCap: int, modelRate: real)

  function Dims(l: Limits, user: string, app: string, model: string): (ds: seq<Dimension>)
    ensures |ds| == 3
  {
    [Dimension("user", user, l.userCap, l.userRate),
     Dimension("app", app, l.appCap, l.appRate),
     Dimension("model", model, l.modelCap, l.modelRate)]
  }

  ghost predicate Apart(dims: seq<Dimension>) {
    forall i, j :: 0 <= i < j < |dims| ==> BuildKey(dims[i]) != BuildKey(dims[j])
  }

  lemma DimsAreApart(l: Limits, user: string, app: string, model: string)
    ensures Apart(Dims(l, user, app, model))
  {
    var dims := Dims(l, user, app, model);
    forall i, j | 0 <= i < j < 3
      ensures BuildKey(dims[i]) != BuildKey(dims[j])
    {
      if BuildKey(dims[i]) == BuildKey(dims[j]) {
        KeysAreApart(dims[i], dims[j]);
      }
    }
  }

  /** The first `n` dimensions have enough in `store`, and the next one, if any, has not. */
  ghost predicate ShortAt(store: Store, dims: seq<Dimension>, tokens: int, at: seq<int>, n: nat)
    requires |at| == |dims|
  {
    && n <= |dims|
    && (forall i :: 0 <= i < n ==> Enough(store, dims[i], tokens, at[i]))
    && (n < |dims| ==> !Enough(store, dims[n], tokens, at[n]))
  }

  function Charge(store: Store, d: Dimension, tokens: int, at: int): Stored {
    Stored(Level(Find(store, BuildKey(d)), d.capacity, d.rate, at) - tokens as real, Seconds(at), at + TTL)
  }

  /** The first `k` dimensions charged, each from its level in `store`. */
  function Charged(store: Store, dims: seq<Dimension>, tokens: int, at: seq<int>, k: nat): Store
    requires k <= |dims| == |at|
  {
    if k == 0 then store
    else Charged(store, dims, tokens, at, k - 1)[BuildKey(dims[k - 1]) := Charge(store, dims[k - 1], tokens, at[k - 1])]
  }

  lemma {:induction false} ChargedLeavesRest(store: Store, dims: seq<Dimension>, tokens: int, at: seq<int>, k: nat,
                                                  key: string)
    requires k <= |dims| == |at| && (forall i :: 0 <= i < k ==> BuildKey(dims[i]) != key)
    ensures Find(Charged(store, dims, tokens, at, k), key) == Find(store, key)
  {
    if k > 0 {
      ChargedLeavesRest(store, dims, tokens, at, k - 1, key);
    }
  }

  lemma {:induction false} ChargedIsThere(store: Store, dims: seq<Dimension>, tokens: int, at: seq<int>, k: nat, i: nat)
    requires i < k <= |dims| == |at| && Apart(dims)
    ensures Find(Charged(store, dims, tokens, at, k), BuildKey(dims[i])) == Some(Charge(store, dims[i], tokens, at[i]))
  {
    if i < k - 1 {
      ChargedIsThere(store, dims, tokens, at, k - 1, i);
    }
  }

  // ---------------------------------------------------------------------------
  // The three checks, by name

  predicate Has(store: Store, key: string, capacity: int, rate: real, tokens: int, at: int) {
    Level(Find(store, key), capacity, rate, at) >= tokens as real
  }

  /** The bucket under `key` pays the tokens, or stays as it was. */
  ghost predicate Pays(store: Store, store': Store, key: string, capacity: int, rate: real, tokens: int, at: int,
                       pays: bool)
  {
    Find(store', key) ==
    if pays then Some(Stored(Level(Find(store, key), capacity, rate, at) - tokens as real, at / 1000, at + 3_600_000))
    else Find(store, key)
  }

  /** The user's bucket pays if it has enough, then the app's if it has too, then the model's; the first that
      has not is named, and no other bucket changes. */
  ghost predicate Checked(l: Limits, user: string, app: string, model: string, tokens: int, at: seq<int>,
                          store: Store, store': Store, r: Result<(), Dimension>)
    requires |at| == 3
  {
    var u, a, m := "ratelimit:user:" + user, "ratelimit:app:" + app, "ratelimit:model:" + model;
    var userHas := Has(store, u, l.userCap, l.userRate, tokens, at[0]);
    var appHas := Has(store, a, l.appCap, l.appRate, tokens, at[1]);
    var modelHas := Has(store, m, l.modelCap, l.modelRate, tokens, at[2]);
    && Pays(store, store', u, l.userCap, l.userRate, tokens, at[0], userHas)
    && Pays(store, store', a, l.appCap, l.appRate, tokens, at[1], userHas && appHas)
    && Pays(store, store', m, l.modelCap, l.modelRate, tokens, at[2], userHas && appHas && modelHas)
    && (forall key :: key != u && key != a && key != m ==> Find(store', key) == Find(store, key))
    && (r.Ok? <==> userHas && appHas && modelHas)
    && (r.Err? ==> r.error.kind == (if !userHas then "user" else if !appHas then "app" else "model"))
    && (r.Err? ==> r.error.identifier == (if !userHas then user else if !appHas then app else model))
  }

  lemma DimKeys(l: Limits, user: string, app: string, model: string)
    ensures var dims := Dims(l, user, app, model);
            && BuildKey(dims[0]) == "ratelimit:user:" + user
            && BuildKey(dims[1]) == "ratelimit:app:" + app
            && BuildKey(dims[2]) == "ratelimit:model:" + model
  {
    assert "ratelimit:" + "user" + ":" == "ratelimit:user:";
    assert "ratelimit:" + "app" + ":" == "ratelimit:app:";
    assert "ratelimit:" + "model" + ":" == "ratelimit:model:";
  }

  lemma {:induction false} PaysInTurn(store: Store, dims: seq<Dimension>, tokens: int, at: seq<int>, k: nat, i: nat)
    requires k <= |dims| == |at| && i < |dims| && Apart(dims)
    ensures var d := dims[i];
            Pays(store, Charged(store, dims, tokens, at, k), BuildKey(d), d.capacity, d.rate, tokens, at[i], i < k)
  {
    hide Level, BuildKey;
    if i < k {
      ChargedIsThere(store, dims, tokens, at, k, i);
    } else {
      ChargedLeavesRest(store, dims, tokens, at, k, BuildKey(dims[i]));
    }
  }

  lemma {:induction false} CheckedByName(l: Limits, user: string, app: string, model: string, tokens: int,
                                         at: seq<int>, store: Store, n: nat, r: Result<(), Dimension>)
    requires |at| == 3 && n <= 3
    requires var dims := Dims(l, user, app, model);
             ShortAt(store, dims, tokens, at, n) && r == if n == 3 then Ok(()) else Err(dims[n])
    ensures Checked(l, user, app, model, tokens, at, store,
                    Charged(store, Dims(l, user, app, model), tokens, at, n), r)
  {
    var dims := Dims(l, user, app, model);
    DimsAreApart(l, user, app, model);
    DimKeys(l, user, app, model);
    hide BuildKey, Level, Charged, Pays;
    PaysInTurn(store, dims, tokens, at, n, 0);
    PaysInTurn(store, dims, tokens, at, n, 1);
    PaysInTurn(store, dims, tokens, at, n, 2);
    forall key | key != BuildKey(dims[0]) && key != BuildKey(dims[1]) && key != BuildKey(dims[2])
      ensures Find(Charged(store, dims, tokens, at, n), key) == Find(store, key)
    {
      ChargedLeavesRest(store, dims, tokens, at, n, key);
    }
    assert forall i :: 0 <= i < 3 ==>
      (Enough(store, dims[i], tokens, at[i])
       <==> Has(store, BuildKey(dims[i]), dims[i].capacity, dims[i].rate, tokens, at[i]));
  }

  class RateLimiter {
    const limits: Limits
    var store: Store

    constructor (limits: Limits)
      ensures this.limits == limits && store == map[]
    {
      this.limits := limits;
      store := map[];
    }

    method AllowRequest(d: Dimension, tokens: int, at: int) returns (allowed: bool)
      modifies this
      ensures (store, allowed) == AllowOn(old(store), d, tokens, at)
    {
      var key := BuildKey(d);
      var level, lastUpdate := d.capacity as real, Seconds(at);
      if key in store && at < store[key].expires {
        level, lastUpdate := store[key].tokens, store[key].lastUpdate;
      }
      var elapsed := Seconds(at) - lastUpdate;
      level := Min(d.capacity as real, level + elapsed as real * d.rate);
      if level >= tokens as real {
        store := store[key := Stored(level - tokens as real, Seconds(at), at + TTL)];
        allowed := true;
      } else {
        allowed := false;
      }
    }

    /** `at` holds the three clock readings, one per check. Judged by the levels before the request,
        the dimensions ahead of the first short one are charged, and it is the one refused; the
        request is admitted exactly when none is short. */
    method CheckMultiDimension(user: string, app: string, model: string, tokens: int, at: seq<int>)
      returns (r: Result<(), Dimension>, ghost n: nat)
      requires |at| == 3
      modifies this
      ensures var dims := Dims(limits, user, app, model);
              && ShortAt(old(store), dims, tokens, at, n)
              && store == Charged(old(store), dims, tokens, at, n)
              && r == (if n == 3 then Ok(()) else Err(dims[n]))
      ensures Checked(limits, user, app, model, tokens, at, old(store), store, r)
    {
      var dims := Dims(limits, user, app, model);
      DimsAreApart(limits, user, app, model);
      ghost var before := store;
      n := 0;
      for i := 0 to |dims|
        invariant n == i && store == Charged(before, dims, tokens, at, i)
        invariant forall j :: 0 <= j < i ==> Enough(before, dims[j], tokens, at[j])
      {
        ChargedLeavesRest(before, dims, tokens, at, i, BuildKey(dims[i]));
        var allowed := AllowRequest(dims[i], tokens, at[i]);
        if !allowed {
          CheckedByName(limits, user, app, model, tokens, at, before, n, Err(dims[i]));
          return Err(dims[i]), n;
        }
        n := n + 1;
      }
      CheckedByName(limits, user, app, model, tokens, at, before, 3, Ok(()));
      return Ok(()), n;
    }
  }

  // ---------------------------------------------------------------------------
  // What a refused request leaves behind

  /** The level of a dimension's bucket at a time. */
  function LevelOf(store: Store, d: Dimension, at: int): real {
    Level(Find(store, BuildKey(d)), d.capacity, d.rate, at)
  }

  lemma ChargedLevel(store: Store, d: Dimension, tokens: int, at: int)
    requires tokens >= 0
    ensures Level(Some(Charge(store, d, tokens, at)), d.capacity, d.rate, at) == LevelOf(store, d, at) - tokens as real
  {
    assert (Seconds(at) - Seconds(at)) as real * d.rate == 0.0;
  }

  /** At its own check time each charged level is lower by the tokens, and each other level is as before. */
  lemma {:induction false} ChargedLevels(store: Store, dims: seq<Dimension>, tokens: int, at: seq<int>, k: nat, i: nat)
    requires k <= |dims| == |at| && i < |dims| && Apart(dims) && tokens >= 0
    ensures LevelOf(Charged(store, dims, tokens, at, k), dims[i], at[i])
            == LevelOf(store, dims[i], at[i]) - if i < k then tokens as real else 0.0
  {
    if i < k {
      ChargedIsThere(store, dims, tokens, at, k, i);
      ChargedLevel(store, dims[i], tokens, at[i]);
    } else {
      ChargedLeavesRest(store, dims, tokens, at, k, BuildKey(dims[i]));
    }
  }

  ghost predicate SameLevels(store: Store, store': Store, dims: seq<Dimension>, at: seq<int>)
    requires |dims| == |at|
  {
    forall i :: 0 <= i < |dims| ==> LevelOf(store', dims[i], at[i]) == LevelOf(store, dims[i], at[i])
  }

  /** A refused request for a positive amount leaves all three levels as they were if and only if it is
      the user's bucket that is short. */
  lemma {:induction false} RefusedLeavesLevelsIff(store: Store, l: Limits, user: string, app: string, model: string,
                                                  tokens: int, at: seq<int>, n: nat)
    requires |at| == 3 && tokens > 0 && n < 3
    requires ShortAt(store, Dims(l, user, app, model), tokens, at, n)
    ensures var dims := Dims(l, user, app, model);
            SameLevels(store, Charged(store, dims, tokens, at, n), dims, at) <==> !Enough(store, dims[0], tokens, at[0])
  {
    var dims := Dims(l, user, app, model);
    DimsAreApart(l, user, app, model);
    var store' := Charged(store, dims, tokens, at, n);
    forall i | 0 <= i < 3
      ensures LevelOf(store', dims[i], at[i]) == LevelOf(store, dims[i], at[i]) - if i < n then tokens as real else 0.0
    {
      ChargedLevels(store, dims, tokens, at, n, i);
    }
    hide Dims, LevelOf, Charged, Enough;
    if n > 0 {
      assert LevelOf(store', dims[0], at[0]) != LevelOf(store, dims[0], at[0]);
    }
  }

  /** Five tokens asked of full buckets of ten, one and ten: the app's is short, and the user has paid. */
  lemma {:induction false} RefusedAndCharged(user: string, app: string, model: string)
    ensures var l := Limits(10, 1.0, 1, 1.0, 10, 1.0);
            var dims := Dims(l, user, app, model);
            && ShortAt(map[], dims, 5, [0, 0, 0], 1)
            && LevelOf(map[], dims[0], 0) == 10.0
            && LevelOf(Charged(map[], dims, 5, [0, 0, 0], 1), dims[0], 0) == 5.0
  {
    var dims := Dims(Limits(10, 1.0, 1, 1.0, 10, 1.0), user, app, model);
    DimsAreApart(Limits(10, 1.0, 1, 1.0, 10, 1.0), user, app, model);
    ChargedLevels(map[], dims, 5, [0, 0, 0], 1, 0);
    hide BuildKey;
    assert dims[0].capacity == 10 && dims[1].capacity == 1;
  }
}
