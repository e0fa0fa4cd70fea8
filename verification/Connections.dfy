// The connection manager: which upstream body belongs to a session, and who closes it.
module Connections {

  /** Five minutes, in milliseconds. */
  const TIMEOUT: int := 300_000

  /** A registered connection: what it holds open, and when it was last active. */
  datatype Entry<O> = Entry(owner: O, last: int)

  type Table<O> = map<string, Entry<O>>

  predicate Stale<O>(t: Table<O>, session: string, now: int) {
    session in t && now - t[session].last > TIMEOUT
  }

  function Kept<O>(t: Table<O>, now: int): Table<O> {
    map k | k in t && !Stale(t, k, now) :: t[k]
  }

  function Touched<O>(t: Table<O>, session: string, now: int): Table<O> {
    if session in t then t[session := t[session].(last := now)] else t
  }

  /** What is left of `t` when a sweep has still to visit `rest`. */
  function Unswept<O>(t: Table<O>, rest: set<string>, now: int): Table<O> {
    map k | k in t && (k in rest || !Stale(t, k, now)) :: t[k]
  }

  lemma AllUnswept<O>(t: Table<O>, now: int)
    ensures Unswept(t, t.Keys, now) == t && Unswept(t, {}, now) == Kept(t, now)
  {
    assert Unswept(t, t.Keys, now).Keys == t.Keys;
  }

  lemma VisitedIsSwept<O>(t: Table<O>, rest: set<string>, session: string, now: int)
    requires session in rest && session in t
    ensures var u := Unswept(t, rest, now);
            Unswept(t, rest - {session}, now) == if Stale(u, session, now) then u - {session} else u
  {
  }

  class Body {
    var closes: nat

    constructor ()
      ensures closes == 0
    {
      closes := 0;
    }

    method Close()
      modifies this
      ensures closes == old(closes) + 1
    {
      closes := closes + 1;
    }
  }

  class Connection {
    const body: Body
    var lastActivity: int
    var closed: bool

    constructor (body: Body, now: int)
      ensures this.body == body && lastActivity == now && !closed
    {
      this.body, lastActivity, closed := body, now, false;
    }
  }

  /** Neither the connection nor its body is registered for another session. */
  ghost predicate Alone(m: map<string, Connection>, session: string, conn: Connection) {
    forall k :: k in m && k != session ==> m[k] != conn && m[k].body != conn.body
  }

  class ConnectionManager {
    var connections: map<string, Connection>

    ghost function Objects(): set<object>
      reads this
    {
      (set k | k in connections :: connections[k]) + (set k | k in connections :: connections[k].body)
    }

    /** Registered connections are open, and each has a body of its own. */
    ghost predicate Valid()
      reads this, Objects()
    {
      && (forall k :: k in connections ==> !connections[k].closed)
      && (forall k, l :: k in connections && l in connections && k != l ==>
            connections[k] != connections[l] && connections[k].body != connections[l].body)
    }

    ghost function Abs(): Table<Body>
      reads this, Objects()
    {
      map k | k in connections :: Entry(connections[k].body, connections[k].lastActivity)
    }

    constructor ()
      ensures Valid() && Abs() == map[]
    {
      connections := map[];
    }

    /** Whatever was registered for the session is forgotten, without being closed. */
    method Register(session: string, conn: Connection)
      modifies this
      ensures connections == old(connections)[session := conn]
      ensures Abs() == old(Abs())[session := Entry(conn.body, conn.lastActivity)]
      ensures old(Valid()) && !conn.closed && Alone(old(connections), session, conn) ==> Valid()
    {
      connections := connections[session := conn];
      assert Abs() == old(Abs())[session := Entry(conn.body, conn.lastActivity)];
    }

    /** Both ways of giving up a connection: close its body once, and forget it. */
    method CloseEntry(session: string, conn: Connection)
      requires session in connections && connections[session] == conn && !conn.closed
      modifies `connections, conn`closed, conn.body
      ensures connections == old(connections) - {session}
      ensures conn.closed && conn.body.closes == old(conn.body.closes) + 1
    {
      if !conn.closed {
        conn.body.Close();
        conn.closed := true;
      }
      connections := connections - {session};
    }

    method Close(session: string)
      requires Valid()
      modifies this, Objects()
      ensures Valid() && Abs() == old(Abs()) - {session}
      ensures forall b: Body :: b in old(Objects()) ==>
                b.closes == old(b.closes) +
                  if session in old(connections) && b == old(connections[session].body) then 1 else 0
    {
      if session in connections {
        CloseEntry(session, connections[session]);
      }
      assert Abs() == old(Abs()) - {session};
    }

    method UpdateActivity(session: string, now: int)
      requires Valid()
      modifies Objects()
      ensures Valid() && connections == old(connections) && Abs() == Touched(old(Abs()), session, now)
      ensures session in old(Abs()) ==> Abs() == old(Abs())[session := Entry(old(Abs())[session].owner, now)]
      ensures session !in old(Abs()) ==> Abs() == old(Abs())
      ensures forall b: Body :: b in old(Objects()) ==> b.closes == old(b.closes)
    {
      if session in connections {
        connections[session].lastActivity := now;
      }
      assert Abs() == Touched(old(Abs()), session, now);
    }

    ghost predicate Apart(t: Table<Body>) {
      forall k, l :: k in t && l in t && k != l ==> t[k].owner != t[l].owner
    }

    lemma ValidIsApart()
      requires Valid()
      ensures Apart(Abs()) && Abs().Keys == connections.Keys
      ensures forall k :: k in connections ==>
                connections[k] in Objects() && connections[k].body in Objects() && Abs()[k].owner == connections[k].body
    {
    }

    /** The owners of `t` that are no longer among `left` have been closed once more than before. */
    ghost predicate Counted(t: Table<Body>, before: map<string, nat>, left: set<string>)
      reads set k | k in t :: t[k].owner
    {
      before.Keys == t.Keys && forall k :: k in t ==> t[k].owner.closes == before[k] + if k in left then 0 else 1
    }

    /** The sweep of `t` so far: `rest` is to be visited. */
    ghost predicate SweptTo(t: Table<Body>, before: map<string, nat>, rest: set<string>, now: int)
      reads this, Objects(), set k | k in t :: t[k].owner
    {
      Valid() && rest <= Abs().Keys && Abs() == Unswept(t, rest, now) && Counted(t, before, Abs().Keys)
    }

    method CloseCounted(session: string, conn: Connection,
                        ghost t: Table<Body>, ghost before: map<string, nat>, ghost left: set<string>)
      requires session in connections && connections[session] == conn && !conn.closed
      requires session in t && session in left && Apart(t) && t[session].owner == conn.body && Counted(t, before, left)
      modifies `connections, conn`closed, conn.body
      ensures connections == old(connections) - {session} && conn.closed
      ensures Counted(t, before, left - {session})
    {
      assert forall k :: k in t && k != session ==> t[k].owner != conn.body;
      CloseEntry(session, conn);
    }

    method Visit(session: string, conn: Connection, now: int, ghost t: Table<Body>, ghost before: map<string, nat>)
      requires Valid() && session in connections && connections[session] == conn
      requires session in t && Apart(t) && t[session].owner == conn.body && Counted(t, before, Abs().Keys)
      modifies `connections, conn`closed, conn.body
      ensures Valid() && Objects() <= old(Objects())
      ensures Abs() == if old(Stale(Abs(), session, now)) then old(Abs()) - {session} else old(Abs())
      ensures Counted(t, before, Abs().Keys)
    {
      hide Apart, Counted;
      ghost var was := Abs();
      if now - conn.lastActivity > TIMEOUT {
        CloseCounted(session, conn, t, before, Abs().Keys);
        assert Abs() == was - {session};
      }
    }

    /** One round of the sweep. */
    method SweepOne(session: string, conn: Connection, now: int,
                    ghost t: Table<Body>, ghost before: map<string, nat>, ghost rest: set<string>)
      requires SweptTo(t, before, rest, now) && Apart(t) && session in rest
      requires session in connections && connections[session] == conn
      modifies `connections, conn`closed, conn.body
      ensures SweptTo(t, before, rest - {session}, now) && Objects() <= old(Objects())
    {
      VisitedIsSwept(t, rest, session, now);
      assert t[session] == Abs()[session];
      hide Valid, Objects, Abs, Apart, Counted, Unswept, Stale;
      Visit(session, conn, now, t, before);
    }

    /** Visit the sessions one by one, in any order. */
    method CleanupStaleConnections(now: int)
      requires Valid()
      modifies `connections, Objects()
      ensures Valid() && Abs() == Kept(old(Abs()), now)
      ensures forall k :: k in Abs() <==> k in old(Abs()) && now - old(Abs())[k].last <= 5 * 60 * 1000
      ensures forall k :: k in Abs() ==> Abs()[k] == old(Abs())[k]
      ensures forall k :: k in old(Abs()) ==>
                var e := old(Abs())[k];
                e.owner.closes == old(e.owner.closes) + if now - e.last > 5 * 60 * 1000 then 1 else 0
    {
      ghost var t, objects := Abs(), Objects();
      ghost var before := map k | k in t :: t[k].owner.closes;
      ValidIsApart();
      AllUnswept(t, now);
      var rest := connections.Keys;
      while rest != {}
        invariant SweptTo(t, before, rest, now) && Objects() <= objects
        decreases rest
      {
        var session :| session in rest;
        ValidIsApart();
        SweepOne(session, connections[session], now, t, before, rest);
        rest := rest - {session};
      }
    }

    method GetConnectionCount() returns (n: nat)
      requires Valid()
      ensures n == |Abs()|
    {
      assert Abs().Keys == connections.Keys;
      n := |connections|;
    }
  }
}
