// The quota ledger: three levels of counters changed by three atomic scripts, and the reservation
// records that carry a reservation from its start to its settlement.
module Quota {
  import opened Common

  datatype Level = User | App | Model

  datatype Node = Node(level: Level, id: string)

  function LevelName(level: Level): string {
    match level
    case User => "user"
    case App => "app"
    case Model => "model"
  }

  /** The key of a node's hash. */
  function BuildKey(n: Node): string {
    "quota:" + LevelName(n.level) + ":" + n.id
  }

  lemma KeysAreApart(a: Node, b: Node)
    requires BuildKey(a) == BuildKey(b)
    ensures a == b
  {
    var ka, kb := BuildKey(a), BuildKey(b);
    assert ka[6] == LevelName(a.level)[0] && kb[6] == LevelName(b.level)[0];
    assert a.level == b.level;
    assert a.id == ka[|"quota:"| + |LevelName(a.level)| + 1..];
    assert b.id == kb[|"quota:"| + |LevelName(b.level)| + 1..];
  }

  datatype Counters = Counters(total: int, used: int, reserved: int)

  type Nodes = map<Node, Counters>

  /** A missing hash reads as zeros. */
  function Get(m: Nodes, n: Node): Counters {
    if n in m then m[n] else Counters(0, 0, 0)
  }

  /** The three nodes that one request is charged to. */
  datatype Path = Path(user: string, app: string, model: string) {
    function At(level: Level): Node {
      match level
      case User => Node(User, user)
      case App => Node(App, app)
      case Model => Node(Model, model)
    }

    predicate Names(n: Node) {
      n == At(n.level)
    }
  }

  function Incr(m: Nodes, n: Node, used: int, reserved: int): Nodes {
    var c := Get(m, n);
    m[n := c.(used := c.used + used, reserved := c.reserved + reserved)]
  }

  function IncrPath(m: Nodes, p: Path, used: int, reserved: int): Nodes {
    Incr(Incr(Incr(m, p.At(User), used, reserved), p.At(App), used, reserved), p.At(Model), used, reserved)
  }

  /** Every node of the path, and no other, changes by the two amounts. */
  lemma IncrPathAt(m: Nodes, p: Path, used: int, reserved: int, n: Node)
    ensures var c := Get(m, n);
            Get(IncrPath(m, p, used, reserved), n) ==
            if p.Names(n) then c.(used := c.used + used, reserved := c.reserved + reserved) else c
  {
  }

  lemma IncrPathKeys(m: Nodes, p: Path, used: int, reserved: int)
    ensures IncrPath(m, p, used, reserved).Keys == m.Keys + {p.At(User), p.At(App), p.At(Model)}
  {
  }

  /** Releasing the reservation first and adding the use after is one change. */
  lemma IncrPathTwice(m: Nodes, p: Path, used: int, reserved: int)
    ensures IncrPath(IncrPath(m, p, 0, reserved), p, used, 0) == IncrPath(m, p, used, reserved)
  {
    var first := IncrPath(m, p, 0, reserved);
    var twice, once := IncrPath(first, p, used, 0), IncrPath(m, p, used, reserved);
    IncrPathKeys(m, p, 0, reserved);
    IncrPathKeys(first, p, used, 0);
    IncrPathKeys(m, p, used, reserved);
    forall n
      ensures Get(twice, n) == Get(once, n)
    {
      IncrPathAt(m, p, 0, reserved, n);
      IncrPathAt(first, p, used, 0, n);
      IncrPathAt(m, p, used, reserved, n);
    }
    hide IncrPath;
    assert forall n :: n in once ==> twice[n] == Get(twice, n) && once[n] == Get(once, n);
  }

  function FirstShort(m: Nodes, p: Path, short: Counters -> bool): Option<Level> {
    if short(Get(m, p.At(User))) then Some(User)
    else if short(Get(m, p.At(App))) then Some(App)
    else if short(Get(m, p.At(Model))) then Some(Model)
    else None
  }

  function DeductScript(m: Nodes, p: Path, tokens: int): (Nodes, Result<(), Level>) {
    match FirstShort(m, p, (c: Counters) => c.total - c.used < tokens)
    case Some(level) => (m, Err(level))
    case None => (IncrPath(m, p, tokens, 0), Ok(()))
  }

  function ReserveScript(m: Nodes, p: Path, tokens: int): (Nodes, Result<(), Level>) {
    match FirstShort(m, p, (c: Counters) => c.total - c.used - c.reserved < tokens)
    case Some(level) => (m, Err(level))
    case None => (IncrPath(m, p, 0, tokens), Ok(()))
  }

  function SettleScript(m: Nodes, p: Path, reserved: int, actual: int): Nodes {
    IncrPath(m, p, actual, -reserved)
  }

  // ---------------------------------------------------------------------------
  // What the scripts do, node by node

  /** The user's, the app's and the model's node change by the two amounts, and no other node does. */
  ghost predicate Charges(m: Nodes, m': Nodes, p: Path, used: int, reserved: int) {
    forall n ::
      Get(m', n) ==
      if n == Node(User, p.user) || n == Node(App, p.app) || n == Node(Model, p.model)
      then Counters(Get(m, n).total, Get(m, n).used + used, Get(m, n).reserved + reserved)
      else Get(m, n)
  }

  /** The first node short of unused tokens is named, and nothing changes; or none is, and all are charged. */
  ghost predicate Deducts(m: Nodes, m': Nodes, p: Path, tokens: int, refused: Option<Level>) {
    var user, app, model := Get(m, Node(User, p.user)), Get(m, Node(App, p.app)), Get(m, Node(Model, p.model));
    var userHas, appHas := user.total - user.used >= tokens, app.total - app.used >= tokens;
    && (refused == Some(User) <==> !userHas)
    && (refused == Some(App) <==> userHas && !appHas)
    && (refused == Some(Model) <==> userHas && appHas && model.total - model.used < tokens)
    && (if refused.Some? then m' == m else Charges(m, m', p, tokens, 0))
  }

  /** The same for tokens that are neither used nor reserved. */
  ghost predicate Reserves(m: Nodes, m': Nodes, p: Path, tokens: int, refused: Option<Level>) {
    var user, app, model := Get(m, Node(User, p.user)), Get(m, Node(App, p.app)), Get(m, Node(Model, p.model));
    var userHas := user.total - user.used - user.reserved >= tokens;
    var appHas := app.total - app.used - app.reserved >= tokens;
    && (refused == Some(User) <==> !userHas)
    && (refused == Some(App) <==> userHas && !appHas)
    && (refused == Some(Model) <==> userHas && appHas && model.total - model.used - model.reserved < tokens)
    && (if refused.Some? then m' == m else Charges(m, m', p, 0, tokens))
  }

  function Refused(r: Result<(), Level>): Option<Level> {
    match r
    case Ok(_) => None
    case Err(level) => Some(level)
  }

  lemma PathCharges(m: Nodes, p: Path, used: int, reserved: int)
    ensures Charges(m, IncrPath(m, p, used, reserved), p, used, reserved)
  {
    forall n
      ensures p.Names(n) <==> n == Node(User, p.user) || n == Node(App, p.app) || n == Node(Model, p.model)
    {
    }
    forall n
      ensures Get(IncrPath(m, p, used, reserved), n) ==
              if p.Names(n)
              then Counters(Get(m, n).total, Get(m, n).used + used, Get(m, n).reserved + reserved) else Get(m, n)
    {
      IncrPathAt(m, p, used, reserved, n);
    }
  }

  lemma DeductScriptDeducts(m: Nodes, p: Path, tokens: int)
    ensures var (m', r) := DeductScript(m, p, tokens);
            Deducts(m, m', p, tokens, Refused(r))
  {
    PathCharges(m, p, tokens, 0);
    hide IncrPath, Charges;
  }

  lemma ReserveScriptReserves(m: Nodes, p: Path, tokens: int)
    ensures var (m', r) := ReserveScript(m, p, tokens);
            Reserves(m, m', p, tokens, Refused(r))
  {
    PathCharges(m, p, 0, tokens);
    hide IncrPath, Charges;
  }

  /** A settlement releases and charges, whatever the counters are. */
  lemma SettleScriptSettles(m: Nodes, p: Path, reserved: int, actual: int)
    ensures Charges(m, SettleScript(m, p, reserved, actual), p, actual, -reserved)
  {
    PathCharges(m, p, actual, -reserved);
  }

  // ---------------------------------------------------------------------------
  // Reservation records

  /** Ten minutes, in milliseconds. */
  const TTL: int := 600_000

  datatype Status = StatusPending | StatusSettled

  datatype Record = Record(path: Path, reserved: int, actual: int, status: Status, expires: int)

  type Records = map<string, Record>

  predicate Live(records: Records, id: string, now: int) {
    id in records && now < records[id].expires
  }

  datatype Failure = Insufficient(level: Level) | NotFound

  class QuotaManager {
    var nodes: Nodes
    var records: Records

    constructor (nodes: Nodes)
      ensures this.nodes == nodes && records == map[]
    {
      this.nodes, records := nodes, map[];
    }

    method RunDeduct(p: Path, tokens: int) returns (r: Result<(), Level>)
      modifies this`nodes
      ensures (nodes, r) == DeductScript(old(nodes), p, tokens)
      ensures Deducts(old(nodes), nodes, p, tokens, Refused(r))
    {
      DeductScriptDeducts(nodes, p, tokens);
      hide Deducts;
      var user, app, model := Get(nodes, p.At(User)), Get(nodes, p.At(App)), Get(nodes, p.At(Model));
      if user.total - user.used < tokens {
        return Err(User);
      }
      if app.total - app.used < tokens {
        return Err(App);
      }
      if model.total - model.used < tokens {
        return Err(Model);
      }
      nodes := Incr(nodes, p.At(User), tokens, 0);
      nodes := Incr(nodes, p.At(App), tokens, 0);
      nodes := Incr(nodes, p.At(Model), tokens, 0);
      return Ok(());
    }

    method RunReserve(p: Path, tokens: int) returns (r: Result<(), Level>)
      modifies this`nodes
      ensures (nodes, r) == ReserveScript(old(nodes), p, tokens)
      ensures Reserves(old(nodes), nodes, p, tokens, Refused(r))
    {
      ReserveScriptReserves(nodes, p, tokens);
      hide Reserves;
      var user, app, model := Get(nodes, p.At(User)), Get(nodes, p.At(App)), Get(nodes, p.At(Model));
      if user.total - user.used - user.reserved < tokens {
        return Err(User);
      }
      if app.total - app.used - app.reserved < tokens {
        return Err(App);
      }
      if model.total - model.used - model.reserved < tokens {
        return Err(Model);
      }
      nodes := Incr(nodes, p.At(User), 0, tokens);
      nodes := Incr(nodes, p.At(App), 0, tokens);
      nodes := Incr(nodes, p.At(Model), 0, tokens);
      return Ok(());
    }

    method RunSettle(p: Path, reserved: int, actual: int)
      modifies this`nodes
      ensures nodes == SettleScript(old(nodes), p, reserved, actual)
      ensures Charges(old(nodes), nodes, p, actual, -reserved)
    {
      SettleScriptSettles(nodes, p, reserved, actual);
      hide Charges;
      nodes := Incr(nodes, p.At(User), 0, -reserved);
      nodes := Incr(nodes, p.At(App), 0, -reserved);
      nodes := Incr(nodes, p.At(Model), 0, -reserved);
      nodes := Incr(nodes, p.At(User), actual, 0);
      nodes := Incr(nodes, p.At(App), actual, 0);
      nodes := Incr(nodes, p.At(Model), actual, 0);
      IncrPathTwice(old(nodes), p, actual, -reserved);
    }

    method DeductQuota(p: Path, tokens: int) returns (r: Result<(), Failure>)
      modifies this`nodes
      ensures nodes == DeductScript(old(nodes), p, tokens).0
      ensures match DeductScript(old(nodes), p, tokens).1
              case Ok(_) => r == Ok(())
              case Err(level) => r == Err(Insufficient(level))
      ensures r.Err? ==> r.error.Insufficient?
      ensures Deducts(old(nodes), nodes, p, tokens, if r.Ok? then None else Some(r.error.level))
    {
      var res := RunDeduct(p, tokens);
      match res
      case Ok(_) => r := Ok(());
      case Err(level) => r := Err(Insufficient(level));
    }

    /** `id` is the fresh identifier that the call draws; `now` the time its record is stored. */
    method ReserveQuota(id: string, p: Path, tokens: int, now: int) returns (r: Result<string, Failure>)
      modifies this
      ensures nodes == ReserveScript(old(nodes), p, tokens).0
      ensures match ReserveScript(old(nodes), p, tokens).1
              case Ok(_) => r == Ok(id) && records == old(records)[id := Record(p, tokens, 0, StatusPending, now + TTL)]
              case Err(level) => r == Err(Insufficient(level)) && records == old(records)
      ensures r.Err? ==> r.error.Insufficient?
      ensures Reserves(old(nodes), nodes, p, tokens, if r.Ok? then None else Some(r.error.level))
      ensures records == if r.Ok? then old(records)[id := Record(p, tokens, 0, StatusPending, now + 10 * 60 * 1000)]
                         else old(records)
    {
      var res := RunReserve(p, tokens);
      if res.Err? {
        return Err(Insufficient(res.error));
      }
      records := records[id := Record(p, tokens, 0, StatusPending, now + TTL)];
      return Ok(id);
    }

    /** The record is looked up at `found` and written back at `stored`. Its status is not looked at. */
    method SettleQuota(id: string, actual: int, found: int, stored: int) returns (r: Result<(), Failure>)
      modifies this
      ensures if !Live(old(records), id, found)
              then r == Err(NotFound) && nodes == old(nodes) && records == old(records)
              else var rec := old(records)[id];
                   && r == Ok(())
                   && nodes == SettleScript(old(nodes), rec.path, rec.reserved, actual)
                   && records == old(records)[id := rec.(actual := actual, status := StatusSettled,
                                                         expires := stored + TTL)]
      ensures r.Ok? <==> id in old(records) && found < old(records)[id].expires
      ensures r.Ok? ==> Charges(old(nodes), nodes, old(records)[id].path, actual, -old(records)[id].reserved)
    {
      if !Live(records, id, found) {
        return Err(NotFound);
      }
      var rec := records[id];
      RunSettle(rec.path, rec.reserved, actual);
      records := records[id := rec.(actual := actual, status := StatusSettled, expires := stored + TTL)];
      return Ok(());
    }
  }
}
