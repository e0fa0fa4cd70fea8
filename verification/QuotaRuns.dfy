// Calls to the quota ledger interleave between their Redis commands. What holds in every such run.
module QuotaRuns {
  import opened Quota

  /** One Redis command of some call. A settlement is named by its call, a reservation by its id. */
  datatype Step =
    | Deduct(path: Path, tokens: int)
    | Reserve(id: string, path: Path, tokens: int)
    | StoreRecord(id: string, now: int)
    | LoadRecord(call: nat, id: string, now: int)
    | Settle(call: nat, actual: int)
    | MarkSettled(call: nat, now: int)

  /** What the scripts did, in order. */
  datatype Entry =
    | Deducted(path: Path, tokens: int)
    | Reserved(id: string, path: Path, tokens: int)
    | Settled(id: string, path: Path, tokens: int, actual: int)

  datatype Held = Held(id: string, record: Record)

  datatype Booking = Booking(path: Path, tokens: int)

  /** `storing` are reservations whose record is not stored yet, `loaded` settlements between their
      lookup and their script, `settled` those between their script and the write-back. */
  datatype Sys = Sys(nodes: Nodes, records: Records, storing: map<string, Booking>,
                     loaded: map<nat, Held>, settled: map<nat, Held>, history: seq<Entry>)

  predicate ReservedIn(h: seq<Entry>, id: string) {
    exists e :: e in h && e.Reserved? && e.id == id
  }

  /** Identifiers are fresh and calls are not confused with each other. */
  predicate Enabled(s: Sys, step: Step) {
    match step
    case Deduct(_, _) => true
    case Reserve(id, _, _) => !ReservedIn(s.history, id)
    case StoreRecord(id, _) => id in s.storing
    case LoadRecord(call, _, _) => call !in s.loaded && call !in s.settled
    case Settle(call, _) => call in s.loaded
    case MarkSettled(call, _) => call in s.settled
  }

  function Do(s: Sys, step: Step): Sys
    requires Enabled(s, step)
  {
    match step
    case Deduct(p, t) =>
      var (nodes, r) := DeductScript(s.nodes, p, t);
      if r.Ok? then s.(nodes := nodes, history := s.history + [Deducted(p, t)]) else s
    case Reserve(id, p, t) =>
      var (nodes, r) := ReserveScript(s.nodes, p, t);
      if r.Ok?
      then s.(nodes := nodes, storing := s.storing[id := Booking(p, t)], history := s.history + [Reserved(id, p, t)])
      else s
    case StoreRecord(id, now) =>
      var Booking(p, t) := s.storing[id];
      s.(records := s.records[id := Record(p, t, 0, StatusPending, now + TTL)], storing := s.storing - {id})
    case LoadRecord(call, id, now) =>
      if Live(s.records, id, now) then s.(loaded := s.loaded[call := Held(id, s.records[id])]) else s
    case Settle(call, actual) =>
      var Held(id, rec) := s.loaded[call];
      s.(nodes := SettleScript(s.nodes, rec.path, rec.reserved, actual),
         loaded := s.loaded - {call},
         settled := s.settled[call := Held(id, rec.(actual := actual, status := StatusSettled))],
         history := s.history + [Settled(id, rec.path, rec.reserved, actual)])
    case MarkSettled(call, now) =>
      var Held(id, rec) := s.settled[call];
      s.(records := s.records[id := rec.(expires := now + TTL)], settled := s.settled - {call})
  }

  // ---------------------------------------------------------------------------
  // Records never lie about their reservation

  predicate True(h: seq<Entry>, id: string, r: Record) {
    Reserved(id, r.path, r.reserved) in h
  }

  ghost predicate RecordsTrue(s: Sys) {
    && (forall id :: id in s.storing ==> Reserved(id, s.storing[id].path, s.storing[id].tokens) in s.history)
    && (forall id :: id in s.records ==> True(s.history, id, s.records[id]))
    && (forall c :: c in s.loaded ==> True(s.history, s.loaded[c].id, s.loaded[c].record))
    && (forall c :: c in s.settled ==> True(s.history, s.settled[c].id, s.settled[c].record))
  }

  ghost predicate Consistent(s: Sys) {
    RecordsTrue(s) && SoundHistory(s.history)
  }

  /** Every settlement comes after the reservation that it settles. */
  ghost predicate Matched(h: seq<Entry>) {
    forall i :: 0 <= i < |h| && h[i].Settled? ==> Reserved(h[i].id, h[i].path, h[i].tokens) in h[..i]
  }

  ghost predicate OneReservationEach(h: seq<Entry>) {
    forall i, j :: 0 <= i < j < |h| && h[i].Reserved? && h[j].Reserved? ==> h[i].id != h[j].id
  }

  ghost predicate SoundHistory(h: seq<Entry>) {
    OneReservationEach(h) && Matched(h)
  }

  lemma HistoryGrows(h: seq<Entry>, e: Entry)
    requires SoundHistory(h)
    requires e.Reserved? ==> !ReservedIn(h, e.id)
    requires e.Settled? ==> Reserved(e.id, e.path, e.tokens) in h
    ensures SoundHistory(h + [e])
  {
    assert forall i :: 0 <= i <= |h| ==> (h + [e])[..i] == h[..i];
  }

  lemma TrueGrows(s: Sys, e: Entry)
    requires RecordsTrue(s)
    ensures RecordsTrue(s.(history := s.history + [e]))
  {
    assert forall f :: f in s.history ==> f in s.history + [e];
  }

  lemma DoRecordsTrue(s: Sys, step: Step)
    requires RecordsTrue(s) && Enabled(s, step)
    ensures RecordsTrue(Do(s, step))
  {
    hide IncrPath, FirstShort;
    match step
    case Deduct(p, t) =>
      TrueGrows(s, Deducted(p, t));
    case Reserve(id, p, t) =>
      TrueGrows(s, Reserved(id, p, t));
      assert Reserved(id, p, t) in s.history + [Reserved(id, p, t)];
    case StoreRecord(id, now) =>
    case LoadRecord(call, id, now) =>
    case Settle(call, actual) =>
      var Held(id, rec) := s.loaded[call];
      TrueGrows(s, Entry.Settled(id, rec.path, rec.reserved, actual));
    case MarkSettled(call, now) =>
  }

  lemma DoConsistent(s: Sys, step: Step)
    requires Consistent(s) && Enabled(s, step)
    ensures Consistent(Do(s, step)) && s.history <= Do(s, step).history
  {
    DoRecordsTrue(s, step);
    hide SoundHistory, IncrPath, FirstShort;
    match step
    case Deduct(p, t) =>
      HistoryGrows(s.history, Deducted(p, t));
    case Reserve(id, p, t) =>
      HistoryGrows(s.history, Reserved(id, p, t));
    case StoreRecord(id, now) =>
    case LoadRecord(call, id, now) =>
    case Settle(call, actual) =>
      var Held(id, rec) := s.loaded[call];
      HistoryGrows(s.history, Entry.Settled(id, rec.path, rec.reserved, actual));
    case MarkSettled(call, now) =>
  }

  // ---------------------------------------------------------------------------
  // Runs

  function Start(nodes: Nodes): Sys {
    Sys(nodes, map[], map[], map[], map[], [])
  }

  predicate Runs(s: Sys, steps: seq<Step>)
    decreases |steps|
  {
    steps == [] || (Enabled(s, steps[0]) && Runs(Do(s, steps[0]), steps[1..]))
  }

  function RunTo(s: Sys, steps: seq<Step>): Sys
    requires Runs(s, steps)
    decreases |steps|
  {
    if steps == [] then s else RunTo(Do(s, steps[0]), steps[1..])
  }

  lemma {:induction false} RunConsistent(s: Sys, steps: seq<Step>)
    requires Consistent(s) && Runs(s, steps)
    ensures Consistent(RunTo(s, steps)) && s.history <= RunTo(s, steps).history
    decreases |steps|
  {
    if steps != [] {
      DoConsistent(s, steps[0]);
      hide Do, Enabled, Consistent;
      RunConsistent(Do(s, steps[0]), steps[1..]);
    }
  }

  // ---------------------------------------------------------------------------
  // Conservation

  /** Tokens that the history adds to the use of a node. */
  function UsedBy(h: seq<Entry>, n: Node): int {
    if h == [] then 0
    else
      UsedBy(h[..|h| - 1], n) +
      match h[|h| - 1]
      case Deducted(p, t) => if p.Names(n) then t else 0
      case Reserved(_, _, _) => 0
      case Settled(_, p, _, actual) => if p.Names(n) then actual else 0
  }

  /** Tokens that the history leaves reserved at a node. */
  function ReservedBy(h: seq<Entry>, n: Node): int {
    if h == [] then 0
    else
      ReservedBy(h[..|h| - 1], n) +
      match h[|h| - 1]
      case Deducted(_, _) => 0
      case Reserved(_, p, t) => if p.Names(n) then t else 0
      case Settled(_, p, t, _) => if p.Names(n) then -t else 0
  }

  /** What settlements took beyond their reservations. */
  function Excess(h: seq<Entry>, n: Node): int {
    if h == [] then 0
    else
      Excess(h[..|h| - 1], n) +
      match h[|h| - 1]
      case Settled(_, p, t, actual) => if p.Names(n) && actual > t then actual - t else 0
      case _ => 0
  }

  ghost predicate Conserved(s: Sys, base: Nodes) {
    forall n {:trigger Get(s.nodes, n)} :: ConservedAt(Get(s.nodes, n), Get(base, n), s.history, n)
  }

  predicate ConservedAt(c: Counters, c0: Counters, h: seq<Entry>, n: Node) {
    && c.total == c0.total
    && c.used == c0.used + UsedBy(h, n)
    && c.reserved == c0.reserved + ReservedBy(h, n)
  }

  /** The step changes nothing, or adds one permitted entry and applies it. */
  ghost predicate AddsAtMostOne(s: Sys, s': Sys) {
    || (s'.nodes == s.nodes && s'.history == s.history)
    || (|s'.history| == |s.history| + 1 && s'.history[..|s.history|] == s.history
        && s'.nodes == Applied(s.nodes, s'.history[|s.history|])
        && Permitted(s.nodes, s'.history[|s.history|]))
  }

  lemma ScriptsPermit(m: Nodes, p: Path, t: int, id: string)
    ensures DeductScript(m, p, t).1.Ok? ==>
              Permitted(m, Deducted(p, t)) && DeductScript(m, p, t).0 == Applied(m, Deducted(p, t))
    ensures ReserveScript(m, p, t).1.Ok? ==>
              Permitted(m, Reserved(id, p, t)) && ReserveScript(m, p, t).0 == Applied(m, Reserved(id, p, t))
  {
    hide IncrPath;
  }

  lemma DeductEffect(s: Sys, p: Path, t: int)
    ensures AddsAtMostOne(s, Do(s, Deduct(p, t)))
  {
    ScriptsPermit(s.nodes, p, t, "");
    hide DeductScript, Applied, Permitted;
  }

  lemma ReserveEffect(s: Sys, id: string, p: Path, t: int)
    requires Enabled(s, Reserve(id, p, t))
    ensures AddsAtMostOne(s, Do(s, Reserve(id, p, t)))
  {
    ScriptsPermit(s.nodes, p, t, id);
    hide Enabled, ReserveScript, Applied, Permitted;
  }

  lemma SettleEffect(s: Sys, call: nat, actual: int)
    requires Enabled(s, Settle(call, actual))
    ensures AddsAtMostOne(s, Do(s, Settle(call, actual)))
  {
    hide IncrPath;
  }

  /** What one step adds to the history, and what that does to the counters. */
  lemma DoEffect(s: Sys, step: Step)
    requires Enabled(s, step)
    ensures AddsAtMostOne(s, Do(s, step))
  {
    match step
    case Deduct(p, t) => DeductEffect(s, p, t);
    case Reserve(id, p, t) => ReserveEffect(s, id, p, t);
    case Settle(call, actual) => SettleEffect(s, call, actual);
    case _ =>
      hide Applied, Permitted;
  }

  function Applied(m: Nodes, e: Entry): Nodes {
    match e
    case Deducted(p, t) => IncrPath(m, p, t, 0)
    case Reserved(_, p, t) => IncrPath(m, p, 0, t)
    case Settled(_, p, t, actual) => IncrPath(m, p, actual, -t)
  }

  /** What the script checked before it made the entry. */
  predicate Permitted(m: Nodes, e: Entry) {
    match e
    case Deducted(p, t) => forall l: Level :: Get(m, p.At(l)).total - Get(m, p.At(l)).used >= t
    case Reserved(_, p, t) =>
      forall l: Level :: Get(m, p.At(l)).total - Get(m, p.At(l)).used - Get(m, p.At(l)).reserved >= t
    case Settled(_, _, _, _) => true
  }

  datatype Field = InUse | OnHold

  /** What an entry changes on each node of its path. */
  function Change(e: Entry, f: Field): int {
    match e
    case Deducted(_, t) => if f.InUse? then t else 0
    case Reserved(_, _, t) => if f.InUse? then 0 else t
    case Settled(_, _, t, actual) => if f.InUse? then actual else -t
  }

  lemma EntryAt(m: Nodes, e: Entry, n: Node)
    ensures Get(Applied(m, e), n).total == Get(m, n).total
    ensures e.path.Names(n) ==>
              && Get(Applied(m, e), n).used == Get(m, n).used + Change(e, InUse)
              && Get(Applied(m, e), n).reserved == Get(m, n).reserved + Change(e, OnHold)
    ensures !e.path.Names(n) ==> Get(Applied(m, e), n) == Get(m, n)
  {
    hide IncrPath;
    match e
    case Deducted(p, t) => IncrPathAt(m, p, t, 0, n);
    case Reserved(_, p, t) => IncrPathAt(m, p, 0, t, n);
    case Settled(_, p, t, actual) => IncrPathAt(m, p, actual, -t, n);
  }

  lemma EntryConserves(m: Nodes, h: seq<Entry>, e: Entry, c0: Counters, n: Node)
    requires ConservedAt(Get(m, n), c0, h, n)
    ensures ConservedAt(Get(Applied(m, e), n), c0, h + [e], n)
  {
    assert (h + [e])[..|h|] == h;
    EntryAt(m, e, n);
    hide Applied;
  }

  lemma DoConserves(s: Sys, step: Step, base: Nodes)
    requires Enabled(s, step) && Conserved(s, base)
    ensures Conserved(Do(s, step), base)
  {
    DoEffect(s, step);
    hide Do, Enabled, Permitted, Applied, ConservedAt;
    var s' := Do(s, step);
    if s'.history != s.history {
      var e := s'.history[|s.history|];
      assert s'.history == s.history + [e];
      forall n
        ensures ConservedAt(Get(s'.nodes, n), Get(base, n), s'.history, n)
      {
        assert ConservedAt(Get(s.nodes, n), Get(base, n), s.history, n);
        EntryConserves(s.nodes, s.history, e, Get(base, n), n);
      }
    }
  }

  lemma {:induction false} RunConserves(s: Sys, steps: seq<Step>, base: Nodes)
    requires Runs(s, steps) && Conserved(s, base)
    ensures Conserved(RunTo(s, steps), base)
    decreases |steps|
  {
    if steps != [] {
      DoConserves(s, steps[0], base);
      RunConserves(Do(s, steps[0]), steps[1..], base);
    }
  }

  // ---------------------------------------------------------------------------
  // Reserved tokens are those of the reservations still open

  predicate AtMostOnce(h: seq<Entry>) {
    forall i, j :: 0 <= i < j < |h| && h[i].Settled? && h[j].Settled? ==> h[i].id != h[j].id
  }

  function SettledIds(h: seq<Entry>): set<string> {
    set e | e in h && e.Settled? :: e.id
  }

  /** Reserved tokens at a node over the reservations outside `done`. */
  function Open(h: seq<Entry>, n: Node, done: set<string>): int {
    if h == [] then 0
    else
      Open(h[..|h| - 1], n, done) +
      match h[|h| - 1]
      case Reserved(id, p, t) => if p.Names(n) && id !in done then t else 0
      case _ => 0
  }

  lemma {:induction false} OpenSame(h: seq<Entry>, n: Node, done: set<string>, id: string)
    requires !ReservedIn(h, id)
    ensures Open(h, n, done + {id}) == Open(h, n, done)
  {
    if h != [] {
      assert h[|h| - 1] in h;
      OpenSame(h[..|h| - 1], n, done, id);
    }
  }

  lemma {:induction false} OpenWithout(h: seq<Entry>, n: Node, done: set<string>, e: Entry)
    requires e in h && e.Reserved? && e.id !in done && OneReservationEach(h)
    ensures Open(h, n, done + {e.id}) == Open(h, n, done) - if e.path.Names(n) then e.tokens else 0
  {
    var init := h[..|h| - 1];
    if h[|h| - 1] == e {
      OpenSame(init, n, done, e.id);
    } else {
      OpenWithout(init, n, done, e);
    }
  }

  /** Tokens released at a node by settlements of reservations that were settled before. */
  function Again(h: seq<Entry>, n: Node): int {
    if h == [] then 0
    else
      Again(h[..|h| - 1], n) +
      match h[|h| - 1]
      case Settled(id, p, t, _) => if p.Names(n) && id in SettledIds(h[..|h| - 1]) then t else 0
      case _ => 0
  }

  /** No reservation of a positive amount at the node is settled a second time. */
  ghost predicate NothingAgain(h: seq<Entry>, n: Node) {
    forall i :: 0 <= i < |h| && h[i].Settled? && h[i].path.Names(n) && h[i].tokens > 0 ==>
      h[i].id !in SettledIds(h[..i])
  }

  lemma LastSettled(h: seq<Entry>)
    requires Matched(h) && h != [] && h[|h| - 1].Settled?
    ensures var init, e := h[..|h| - 1], h[|h| - 1];
            && Reserved(e.id, e.path, e.tokens) in init
            && SettledIds(h) == SettledIds(init) + {e.id}
  {
    hide SettledIds;
    var init, e := h[..|h| - 1], h[|h| - 1];
    assert h == init + [e];
    IdsGrow(init, e);
  }

  lemma IdsGrow(h: seq<Entry>, e: Entry)
    ensures SettledIds(h + [e]) == if e.Settled? then SettledIds(h) + {e.id} else SettledIds(h)
  {
  }

  lemma LastReserved(h: seq<Entry>)
    requires Matched(h) && OneReservationEach(h) && h != [] && !h[|h| - 1].Settled?
    ensures var init, e := h[..|h| - 1], h[|h| - 1];
            && SettledIds(h) == SettledIds(init)
            && (e.Reserved? ==> e.id !in SettledIds(init))
  {
    var init, e := h[..|h| - 1], h[|h| - 1];
    assert h == init + [e];
  }

  /** What is reserved at a node is what its unsettled reservations asked for, whether or not their
      records have expired, less what repeated settlements released. */
  lemma {:induction false} ReservedIsOpen(h: seq<Entry>, n: Node)
    requires OneReservationEach(h) && Matched(h)
    ensures ReservedBy(h, n) == Open(h, n, SettledIds(h)) - Again(h, n)
  {
    if h != [] {
      var init, e := h[..|h| - 1], h[|h| - 1];
      assert Matched(init) by {
        assert forall i :: 0 <= i < |init| ==> init[..i] == h[..i];
      }
      ReservedIsOpen(init, n);
      if e.Settled? {
        LastSettled(h);
        hide SettledIds, Matched;
        if e.id in SettledIds(init) {
          assert SettledIds(init) + {e.id} == SettledIds(init);
        } else {
          OpenWithout(init, n, SettledIds(init), Reserved(e.id, e.path, e.tokens));
        }
      } else {
        LastReserved(h);
      }
    }
  }

  lemma NothingAgainNext(h: seq<Entry>, n: Node)
    requires h != []
    ensures var init, e := h[..|h| - 1], h[|h| - 1];
            NothingAgain(h, n) <==>
            NothingAgain(init, n) && (e.Settled? && e.path.Names(n) && e.tokens > 0 ==> e.id !in SettledIds(init))
  {
    hide SettledIds;
    var init := h[..|h| - 1];
    assert forall i :: 0 <= i < |init| ==> init[i] == h[i] && init[..i] == h[..i];
  }

  lemma {:induction false} AgainIsNothingIff(h: seq<Entry>, n: Node)
    requires NoNegativeAmounts(h)
    ensures Again(h, n) >= 0 && (Again(h, n) == 0 <==> NothingAgain(h, n))
  {
    if h != [] {
      assert h[|h| - 1] in h;
      assert forall e :: e in h[..|h| - 1] ==> e in h;
      NothingAgainNext(h, n);
      hide NothingAgain, SettledIds;
      AgainIsNothingIff(h[..|h| - 1], n);
    } else {
      assert NothingAgain(h, n);
    }
  }

  lemma {:induction false} OnceIsNotAgain(h: seq<Entry>, n: Node)
    requires AtMostOnce(h)
    ensures Again(h, n) == 0
  {
    if h != [] {
      OnceIsNotAgain(h[..|h| - 1], n);
    }
  }

  /** In every run: totals stay, use grows by deductions and settled amounts, and a node's reserved
      tokens are those of its unsettled reservations, less what was released by settling again. */
  lemma {:induction false} QuotaIsConserved(base: Nodes, steps: seq<Step>, n: Node)
    requires Runs(Start(base), steps)
    ensures var s := RunTo(Start(base), steps);
            && Get(s.nodes, n).total == Get(base, n).total
            && Get(s.nodes, n).used == Get(base, n).used + UsedBy(s.history, n)
            && Get(s.nodes, n).reserved == Get(base, n).reserved + ReservedBy(s.history, n)
            && ReservedBy(s.history, n) == Open(s.history, n, SettledIds(s.history)) - Again(s.history, n)
  {
    assert Conserved(Start(base), base);
    RunConserves(Start(base), steps, base);
    var s := RunTo(Start(base), steps);
    assert Conserved(s, base);
    assert ConservedAt(Get(s.nodes, n), Get(base, n), s.history, n);
    RunConsistent(Start(base), steps);
    ReservedIsOpen(s.history, n);
  }

  /** So the reserved tokens are exactly those of the unsettled reservations if and only if nothing of
      a positive amount is settled again; settling each reservation at most once is enough. */
  lemma {:induction false} ReservedIsOpenIff(base: Nodes, steps: seq<Step>, n: Node)
    requires Runs(Start(base), steps) && NoNegativeAmounts(RunTo(Start(base), steps).history)
    ensures var s := RunTo(Start(base), steps);
            && (Get(s.nodes, n).reserved == Get(base, n).reserved + Open(s.history, n, SettledIds(s.history))
                <==> NothingAgain(s.history, n))
            && (AtMostOnce(s.history) ==> NothingAgain(s.history, n))
  {
    QuotaIsConserved(base, steps, n);
    var h := RunTo(Start(base), steps).history;
    hide NothingAgain, Again, ReservedBy, Open, AtMostOnce, SettledIds, NoNegativeAmounts;
    AgainIsNothingIff(h, n);
    if AtMostOnce(h) {
      OnceIsNotAgain(h, n);
    }
  }

  // ---------------------------------------------------------------------------
  // How far a node can be overdrawn

  ghost predicate InBudget(m: Nodes) {
    forall n {:trigger Get(m, n)} ::
      var c := Get(m, n);
      0 <= c.used && 0 <= c.reserved && c.used + c.reserved <= c.total
  }

  ghost predicate NoNegativeAmounts(h: seq<Entry>) {
    forall e :: e in h ==> e.tokens >= 0 && (e.Settled? ==> e.actual >= 0)
  }

  ghost predicate NoDeductions(h: seq<Entry>) {
    forall e :: e in h ==> !e.Deducted?
  }

  ghost predicate NoSettlements(h: seq<Entry>) {
    forall e :: e in h ==> !e.Settled?
  }

  ghost predicate Bounded(c: Counters, h: seq<Entry>, n: Node) {
    && 0 <= c.total && 0 <= c.used && c.reserved <= c.total
    && c.used + c.reserved <= 2 * c.total + Excess(h, n)
    && (NoDeductions(h) ==> c.used + c.reserved <= c.total + Excess(h, n))
    && (NoSettlements(h) ==> c.used <= c.total)
  }

  lemma {:induction false} ExcessNonNegative(h: seq<Entry>, n: Node)
    ensures Excess(h, n) >= 0
  {
    if h != [] {
      ExcessNonNegative(h[..|h| - 1], n);
    }
  }

  lemma EntryKeepsBound(m: Nodes, h: seq<Entry>, e: Entry, n: Node)
    requires Bounded(Get(m, n), h, n) && Permitted(m, e) && NoNegativeAmounts(h + [e])
    ensures Bounded(Get(Applied(m, e), n), h + [e], n)
  {
    assert (h + [e])[..|h|] == h && e in h + [e];
    assert forall f :: f in h ==> f in h + [e];
    ExcessNonNegative(h, n);
    EntryAt(m, e, n);
    hide Applied;
    if e.path.Names(n) {
      assert e.path.At(n.level) == n;
    }
  }

  lemma DoKeepsBound(s: Sys, step: Step, n: Node)
    requires Enabled(s, step) && Bounded(Get(s.nodes, n), s.history, n)
    requires NoNegativeAmounts(Do(s, step).history)
    ensures Bounded(Get(Do(s, step).nodes, n), Do(s, step).history, n)
  {
    DoEffect(s, step);
    var s' := Do(s, step);
    hide Do, Enabled;
    if s'.history != s.history {
      var e := s'.history[|s.history|];
      assert s'.history == s.history + [e];
      EntryKeepsBound(s.nodes, s.history, e, n);
    }
  }

  lemma {:induction false} RunKeepsBound(s: Sys, steps: seq<Step>, n: Node)
    requires Consistent(s) && Runs(s, steps) && Bounded(Get(s.nodes, n), s.history, n)
    requires NoNegativeAmounts(RunTo(s, steps).history)
    ensures Bounded(Get(RunTo(s, steps).nodes, n), RunTo(s, steps).history, n)
    decreases |steps|
  {
    if steps != [] {
      DoConsistent(s, steps[0]);
      var s' := Do(s, steps[0]);
      assert RunTo(s, steps) == RunTo(s', steps[1..]);
      hide Do, Enabled, Consistent;
      RunConsistent(s', steps[1..]);
      assert forall e :: e in s'.history ==> e in RunTo(s, steps).history;
      DoKeepsBound(s, steps[0], n);
      RunKeepsBound(s', steps[1..], n);
    }
  }

  lemma {:induction false} OpenNonNegative(h: seq<Entry>, n: Node, done: set<string>)
    requires NoNegativeAmounts(h)
    ensures Open(h, n, done) >= 0
  {
    if h != [] {
      assert h[|h| - 1] in h;
      OpenNonNegative(h[..|h| - 1], n, done);
    }
  }

  /** From a ledger in budget and without negative amounts, every run keeps use and reservation of a
      node together within twice its total, plus what settlements took beyond their reservations: once
      the total without deductions. When nothing is settled twice the reserved part is no credit, so
      use alone obeys the same bounds; and it stays within the total while nothing is settled. */
  lemma {:induction false} OverdraftIsBounded(base: Nodes, steps: seq<Step>, n: Node)
    requires Runs(Start(base), steps) && InBudget(base)
    requires NoNegativeAmounts(RunTo(Start(base), steps).history)
    ensures var s := RunTo(Start(base), steps);
            var c, total := Get(s.nodes, n), Get(base, n).total;
            && c.used + c.reserved <= 2 * total + Excess(s.history, n)
            && (NoDeductions(s.history) ==> c.used + c.reserved <= total + Excess(s.history, n))
            && (NoSettlements(s.history) ==> c.used <= total)
            && (AtMostOnce(s.history) ==> 0 <= c.reserved)
  {
    assert 0 <= Get(base, n).used <= Get(base, n).total;
    RunKeepsBound(Start(base), steps, n);
    QuotaIsConserved(base, steps, n);
    var s := RunTo(Start(base), steps);
    OpenNonNegative(s.history, n, SettledIds(s.history));
    if AtMostOnce(s.history) {
      OnceIsNotAgain(s.history, n);
    }
  }

  predicate Within(c: Counters) {
    c.used + c.reserved <= c.total
  }

  /** From a node within its total, an entry that the scripts permit keeps it there exactly when it is
      a reservation, a deduction of no more than is neither used nor reserved, or a settlement that
      goes beyond its reservation by no more than that. */
  lemma KeepsWithinIff(m: Nodes, e: Entry, n: Node)
    requires Within(Get(m, n)) && e.path.Names(n) && Permitted(m, e)
    ensures var c := Get(m, n);
            var free := c.total - c.used - c.reserved;
            Within(Get(Applied(m, e), n)) <==>
            match e
            case Reserved(_, _, _) => true
            case Deducted(_, t) => t <= free
            case Settled(_, _, t, actual) => actual - t <= free
  {
    EntryAt(m, e, n);
    hide Applied;
    assert e.path.At(n.level) == n;
  }

  // ---------------------------------------------------------------------------
  // The three levels move together

  function Value(c: Counters, f: Field): int {
    if f.InUse? then c.used else c.reserved
  }

  ghost function Sum(m: Nodes, keys: set<Node>, f: Field): int {
    if keys == {} then 0
    else
      var n :| n in keys;
      Value(Get(m, n), f) + Sum(m, keys - {n}, f)
  }

  lemma {:induction false} SumTakeOut(m: Nodes, keys: set<Node>, f: Field, n: Node)
    requires n in keys
    ensures Sum(m, keys, f) == Value(Get(m, n), f) + Sum(m, keys - {n}, f)
    decreases |keys|
  {
    var k :| k in keys && Sum(m, keys, f) == Value(Get(m, k), f) + Sum(m, keys - {k}, f);
    if k != n {
      SumTakeOut(m, keys - {k}, f, n);
      SumTakeOut(m, keys - {n}, f, k);
      assert keys - {k} - {n} == keys - {n} - {k};
    }
  }

  lemma {:induction false} SumSame(m: Nodes, m': Nodes, keys: set<Node>, f: Field)
    requires forall n :: n in keys ==> Get(m, n) == Get(m', n)
    ensures Sum(m, keys, f) == Sum(m', keys, f)
    decreases |keys|
  {
    if keys != {} {
      var n :| n in keys;
      SumTakeOut(m, keys, f, n);
      SumTakeOut(m', keys, f, n);
      SumSame(m, m', keys - {n}, f);
    }
  }

  ghost function NodesOf(m: Nodes, level: Level): set<Node> {
    set n | n in m && n.level == level
  }

  ghost function LevelTotal(m: Nodes, level: Level, f: Field): int {
    Sum(m, NodesOf(m, level), f)
  }

  lemma AppliedKeys(m: Nodes, e: Entry, level: Level)
    ensures NodesOf(Applied(m, e), level) == NodesOf(m, level) + {e.path.At(level)}
  {
    var (used, reserved) := match e
      case Deducted(p, t) => (t, 0)
      case Reserved(_, p, t) => (0, t)
      case Settled(_, p, t, actual) => (actual, -t);
    IncrPathKeys(m, e.path, used, reserved);
    hide IncrPath;
    assert Applied(m, e).Keys == m.Keys + {e.path.At(User), e.path.At(App), e.path.At(Model)};
  }

  lemma ValueMoves(m: Nodes, e: Entry, n: Node, f: Field)
    ensures Value(Get(Applied(m, e), n), f) == Value(Get(m, n), f) + if e.path.Names(n) then Change(e, f) else 0
    ensures !e.path.Names(n) ==> Get(Applied(m, e), n) == Get(m, n)
  {
    EntryAt(m, e, n);
  }

  lemma EntryMovesLevel(m: Nodes, e: Entry, level: Level, f: Field)
    ensures LevelTotal(Applied(m, e), level, f) == LevelTotal(m, level, f) + Change(e, f)
  {
    var n, m', keys := e.path.At(level), Applied(m, e), NodesOf(m, level);
    AppliedKeys(m, e, level);
    ValueMoves(m, e, n, f);
    forall k | k in keys - {n}
      ensures Get(m, k) == Get(m', k)
    {
      ValueMoves(m, e, k, f);
    }
    hide Applied, Change;
    SumTakeOut(m', keys + {n}, f, n);
    assert keys + {n} - {n} == keys - {n};
    SumSame(m, m', keys - {n}, f);
    if n in keys {
      SumTakeOut(m, keys, f, n);
    } else {
      assert keys - {n} == keys;
    }
  }

  function Changes(h: seq<Entry>, f: Field): int {
    if h == [] then 0 else Changes(h[..|h| - 1], f) + Change(h[|h| - 1], f)
  }

  lemma {:induction false} RunMovesLevel(s: Sys, steps: seq<Step>, level: Level, f: Field)
    requires Runs(s, steps)
    ensures var r := RunTo(s, steps);
            LevelTotal(r.nodes, level, f) - LevelTotal(s.nodes, level, f)
            == Changes(r.history, f) - Changes(s.history, f)
    decreases |steps|
  {
    if steps != [] {
      DoEffect(s, steps[0]);
      var s' := Do(s, steps[0]);
      assert RunTo(s, steps) == RunTo(s', steps[1..]);
      RunMovesLevel(s', steps[1..], level, f);
      hide Do, Enabled;
      if s'.history != s.history {
        EntryMovesLevel(s.nodes, s'.history[|s.history|], level, f);
      }
    }
  }

  /** In every run the sums over all users, over all apps and over all models change alike. */
  lemma {:induction false} LevelsMoveTogether(base: Nodes, steps: seq<Step>, a: Level, b: Level, f: Field)
    requires Runs(Start(base), steps)
    ensures var m := RunTo(Start(base), steps).nodes;
            LevelTotal(m, a, f) - LevelTotal(base, a, f) == LevelTotal(m, b, f) - LevelTotal(base, b, f)
  {
    RunMovesLevel(Start(base), steps, a, f);
    RunMovesLevel(Start(base), steps, b, f);
  }
}
