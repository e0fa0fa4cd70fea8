// Streams whose meaning the proxy does not keep.
module SseFailures {
  import opened Sse
  import opened SseEdits
  import opened SseMeaning

  // ---------------------------------------------------------------------------
  // Events of several data lines

  /** A blank line is added between two data fields of one upstream event, the second of which may be the
      end marker. */
  ghost predicate TornAt(edits: seq<Edit>, a: nat, j: nat) {
    && 0 < a < j < |edits| && edits[0].Kept? && IsDataField(edits[0].line) && edits[a].Added?
    && (edits[j].Last? || (edits[j].Kept? && IsDataField(edits[j].line)))
    && forall k :: 0 < k < j ==> GoesOn(edits[k])
  }

  /** The upstream's event goes on. */
  predicate GoesOn(edit: Edit) {
    match edit
    case Kept(line) => line != []
    case Lost => false
    case Added => true
    case Last(_) => false
  }

  /** The event of the end marker has another data field. */
  ghost predicate TornBehind(edits: seq<Edit>, j: nat) {
    && edits != [] && edits[0].Last? && j < |edits[0].rest| && IsDataField(edits[0].rest[j])
    && forall k :: 0 <= k < j ==> edits[0].rest[k] != []
  }

  ghost predicate Torn(edits: seq<Edit>) {
    (exists a: nat, j: nat :: TornAt(edits, a, j)) || (exists j: nat :: TornBehind(edits, j))
  }

  lemma {:induction false} OwedTorn(m: Message, s: Buffers, t: Buffers, edits: seq<Edit>, j: nat)
    requires j < |edits| && (edits[j].Last? || (edits[j].Kept? && IsDataField(edits[j].line)))
    requires forall k :: 0 <= k < j ==> GoesOn(edits[k])
    ensures !Owes(m, s, t, true, edits)
    decreases |edits|
  {
    hide Field, FieldOf, Agree;
    if j > 0 {
      match edits[0]
      case Kept(line) => OwedTorn(m, Field(s, line), Field(t, line), edits[1..], j - 1);
      case Added => OwedTorn(m, s, Reset(t), edits[1..], j - 1);
    }
  }

  lemma {:induction false} HeldTorn(u: Buffers, p: Buffers, edits: seq<Edit>, a: nat, j: nat)
    requires p.data != [] && a < j < |edits| && edits[a].Added?
    requires edits[j].Last? || (edits[j].Kept? && IsDataField(edits[j].line))
    requires forall k :: 0 <= k < j ==> GoesOn(edits[k])
    ensures !Agree(u, p, edits)
    decreases |edits|
  {
    hide Field, Owes;
    match edits[0]
    case Kept(line) =>
      DataGrows(p, line);
      hide IsDataField;
      HeldTorn(Field(u, line), Field(p, line), edits[1..], a - 1, j - 1);
    case Added => OwedTorn(Pending(p), u, Reset(p), edits[1..], j - 1);
  }

  lemma {:induction false} EndTorn(m: Message, s: Buffers, lines: seq<Bytes>, j: nat)
    requires j < |lines| && IsDataField(lines[j])
    requires forall k :: 0 <= k < j ==> lines[k] != []
    ensures !Ends(m, s, lines)
    decreases |lines|
  {
    hide Field;
    if j > 0 {
      EndTorn(m, Field(s, lines[0]), lines[1..], j - 1);
    }
  }

  lemma {:induction false} TornNow(u: Buffers, p: Buffers, edits: seq<Edit>)
    requires Torn(edits)
    ensures !Agree(u, p, edits)
  {
    if a: nat, j: nat :| TornAt(edits, a, j) {
      var line, rest := edits[0].line, edits[1..];
      DataGrows(p, line);
      assert forall k :: 0 <= k < j - 1 ==> rest[k] == edits[k + 1];
      hide Field, FieldOf;
      HeldTorn(Field(u, line), Field(p, line), rest, a - 1, j - 1);
    } else {
      var j: nat :| TornBehind(edits, j);
      DoneIsClean();
      DataGrows(p, DONE);
      hide Field, FieldOf;
      EndTorn(Pending(Field(p, DONE)), Field(u, DONE), edits[0].rest, j);
    }
  }

  lemma {:induction false} OwedNow(m: Message, s: Buffers, t: Buffers, upstream: bool, edits: seq<Edit>)
    requires Torn(edits)
    ensures !Owes(m, s, t, upstream, edits)
  {
    hide FieldOf;
  }

  /** The event at `i` is torn, and no end marker stops the proxy before it. */
  ghost predicate TornFrom(edits: seq<Edit>, i: nat) {
    i < |edits| && Torn(edits[i..]) && forall k :: 0 <= k < i ==> !edits[k].Last?
  }

  lemma TornLater(edits: seq<Edit>, i: nat)
    requires TornFrom(edits, i) && i > 0
    ensures TornFrom(edits[1..], i - 1) && !edits[0].Last?
  {
    hide Torn;
    assert edits[1..][i - 1..] == edits[i..];
  }

  lemma TornFirst(edits: seq<Edit>)
    requires TornFrom(edits, 0)
    ensures Torn(edits)
  {
    assert edits[0..] == edits;
  }

  lemma {:induction false} AgreeTorn(u: Buffers, p: Buffers, edits: seq<Edit>, i: nat)
    requires TornFrom(edits, i)
    ensures !Agree(u, p, edits)
    decreases |edits|
  {
    if i == 0 {
      TornFirst(edits);
      TornNow(u, p, edits);
    } else {
      TornLater(edits, i);
      var rest := edits[1..];
      hide TornFrom, Field, Owes, Pending;
      match edits[0]
      case Kept(line) => AgreeTorn(if line == [] then Reset(u) else Field(u, line),
                                   if line == [] then Reset(p) else Field(p, line), rest, i - 1);
      case Lost =>
        if u.data == [] {
          AgreeTorn(Reset(u), p, rest, i - 1);
        } else {
          OwesTorn(Pending(u), p, Reset(u), false, rest, i - 1);
        }
      case Added =>
        if p.data == [] {
          AgreeTorn(u, Reset(p), rest, i - 1);
        } else {
          OwesTorn(Pending(p), u, Reset(p), true, rest, i - 1);
        }
    }
  }

  lemma {:induction false} OwesTorn(m: Message, s: Buffers, t: Buffers, upstream: bool, edits: seq<Edit>, i: nat)
    requires TornFrom(edits, i)
    ensures !Owes(m, s, t, upstream, edits)
    decreases |edits|
  {
    if i == 0 {
      TornFirst(edits);
      OwedNow(m, s, t, upstream, edits);
    } else {
      TornLater(edits, i);
      var rest := edits[1..];
      hide TornFrom, Field, Agree, IsDataField;
      match edits[0]
      case Kept(line) =>
        if line == [] {
          if upstream {
            AgreeTorn(Reset(s), Reset(t), rest, i - 1);
          } else {
            AgreeTorn(Reset(t), Reset(s), rest, i - 1);
          }
        } else {
          OwesTorn(m, Field(s, line), Field(t, line), upstream, rest, i - 1);
        }
      case Lost =>
        if upstream {
          AgreeTorn(Reset(s), t, rest, i - 1);
        } else {
          OwesTorn(m, s, Reset(t), upstream, rest, i - 1);
        }
      case Added =>
        if upstream {
          OwesTorn(m, s, Reset(t), upstream, rest, i - 1);
        } else {
          AgreeTorn(t, Reset(s), rest, i - 1);
        }
    }
  }

  /** For every upstream: it does not keep its meaning if the proxy adds a blank line between two data fields
      of one of its events, wherever that event is and whatever else it has. */
  lemma {:induction false} TwoDataLinesAreTorn(b: Bytes, i: nat)
    requires TornFrom(Edits(b), i)
    ensures Messages(Output(ScanLines(b))) != MessagesThroughDone(b)
    ensures DONE !in ScanLines(b) ==> Messages(Output(ScanLines(b))) != Messages(b)
  {
    hide Messages, MessagesThroughDone, Edits, Output, ScanLines, TornFrom;
    AgreeTorn(START, START, Edits(b), i);
    ProxyKeepsMeaningIff(b);
    if DONE !in ScanLines(b) {
      NothingBehindDone(b);
    }
  }

  // ---------------------------------------------------------------------------
  // The edits of written-out streams

  lemma {:induction false} EditsOfRaw(raw: Bytes, rest: Bytes)
    requires LF !in raw
    ensures EditsByLine(raw + [LF] + rest)
            == if DropCR(raw) == DONE then [Last(SplitLines(rest))] else LineEdits(DropCR(raw)) + EditsByLine(rest)
  {
    var b := raw + [LF] + rest;
    forall j | 0 <= j < |raw|
      ensures b[j] !in {LF}
    {
      assert b[j] == raw[j];
    }
    FindUnique(b, {LF}, |raw|);
    assert b[..|raw|] == raw && b[|raw| + 1..] == rest;
  }

  lemma {:induction false} OnePiece(line: Bytes)
    requires Clean(line)
    ensures Pieces(line) == [line] && Pieces(line + [CR]) == [line] && AllKept([line]) == [Kept(line)]
  {
    SplitAtLF(line, []);
    SplitAtCRLF(line, []);
    SplitNothing([]);
    assert [line][1..] == [];
    hide SplitLines;
    assert line + [LF] + [] == line + [LF];
    assert line + [CR] + [LF] == line + [CR, LF] + [];
  }

  lemma {:induction false} EditsOfClean(line: Bytes, rest: Bytes)
    requires Clean(line)
    ensures EditsByLine(line + [LF] + rest)
            == if line == DONE then [Last(SplitLines(rest))]
               else [Kept(line)] + (if IsData(line) then [Added] else []) + EditsByLine(rest)
  {
    assert !EndsInCR(line);
    OnePiece(line);
    hide EditsByLine, SplitLines, IsData, AllKept;
    EditsOfRaw(line, rest);
  }

  lemma {:induction false} EditsOfReturnedLine(line: Bytes)
    requires Clean(line) && !IsData(line + [CR])
    ensures LineEdits(line + [CR]) == [Kept(line), Lost] && line + [CR] != DONE
    ensures DropCR(line + [CR, CR]) == line + [CR]
  {
    assert EndsInCR(line + [CR]);
    DoneIsClean();
    OnePiece(line);
    hide AllKept, IsData;
  }

  /** A line that is no data line, and two carriage returns before its line feed. */
  lemma {:induction false} EditsOfReturn(line: Bytes, rest: Bytes)
    requires Clean(line) && !IsData(line + [CR])
    ensures EditsByLine(line + [CR, CR, LF] + rest) == [Kept(line), Lost] + EditsByLine(rest)
  {
    hide EditsByLine, SplitLines, IsData, LineEdits, DropCR;
    EditsOfReturnedLine(line);
    assert line + [CR, CR] + [LF] + rest == line + [CR, CR, LF] + rest;
    EditsOfRaw(line + [CR, CR], rest);
  }

  /** Where the edits are all of the upstream, what it tells through its end marker is all it tells. */
  lemma {:induction false} AllThroughDone(b: Bytes)
    requires Upstream(EditsByLine(b)) == SplitLines(b)
    ensures MessagesThroughDone(b) == Messages(b)
  {
    hide Interpret, StripFirst, Upstream, EditsByLine, ThroughDone, SplitLines, StripBom;
    var tail := UpstreamSplits(b);
    SilentTail(ThroughDone(b), tail);
    BomIsInFirstLine(b);
  }

  // ---------------------------------------------------------------------------
  // Two lines, byte for byte

  /** The bytes of one event of two data lines. */
  function TwoLines(a: Bytes, b: Bytes): Bytes {
    PREFIX + a + [LF] + (PREFIX + b + [LF] + ([] + [LF] + []))
  }

  lemma PrefixIsClean(text: Bytes)
    requires Clean(text)
    ensures Clean(PREFIX + text) && IsData(PREFIX + text) && IsDataField(PREFIX + text)
    ensures !(BOM <= PREFIX + text)
  {
    DataGrows(START, PREFIX + text);
    assert BOM[0] != PREFIX[0];
  }

  lemma BlankSplits()
    ensures SplitLines([] + [LF] + []) == [[]] && EditsByLine([] + [LF] + []) == [Kept([])]
  {
    SplitAtLF([], []);
    SplitNothing([]);
    EditsOfClean([], []);
    assert EditsByLine([]) == [];
    hide EditsByLine;
    assert [Kept([])] + [] + [] == [Kept([])];
  }

  /** One event of two clean lines, `b` of which is a data line: its edits and the upstream's lines. */
  lemma {:induction false} TwoLinesEdits(a: Bytes, b: Bytes)
    requires Clean(a) && Clean(b) && IsData(a) && IsData(b)
    ensures var all := a + [LF] + (b + [LF] + ([] + [LF] + []));
            && SplitLines(all) == [a, b, []]
            && EditsByLine(all) == if a == DONE then [Last([b, []])]
                                   else if b == DONE then [Kept(a), Added, Last([[]])]
                                   else [Kept(a), Added, Kept(b), Added, Kept([])]
  {
    BlankSplits();
    hide EditsByLine, SplitLines, IsData;
    SplitAtLF(b, [] + [LF] + []);
    SplitAtLF(a, b + [LF] + ([] + [LF] + []));
    EditsOfClean(b, [] + [LF] + []);
    EditsOfClean(a, b + [LF] + ([] + [LF] + []));
    assert [b] + [[]] == [b, []] && [a] + [b, []] == [a, b, []];
    assert [Kept(b)] + [Added] + [Kept([])] == [Kept(b), Added, Kept([])];
    assert [Kept(a)] + [Added] + [Last([[]])] == [Kept(a), Added, Last([[]])];
    assert [Kept(a)] + [Added] + [Kept(b), Added, Kept([])] == [Kept(a), Added, Kept(b), Added, Kept([])];
  }

  lemma {:induction false} UpstreamEnds(line: Bytes)
    requires line != []
    ensures Upstream([Last([line, []])]) == [DONE, line, []]
    ensures Upstream([Last([[]])]) == [DONE, []]
    ensures Upstream([Kept([])]) == [[]]
  {
    var lines: seq<Bytes> := [line, []];
    assert lines[1..] == [[]];
    assert ThroughBlank(lines) == lines;
    assert [Kept([])][1..] == [];
  }

  lemma {:induction false} DataUpstream(line: Bytes, more: seq<Edit>)
    ensures Upstream([Kept(line), Added] + more) == [line] + Upstream(more)
    ensures Upstream([Kept(line), Lost] + more) == [line, []] + Upstream(more)
  {
    hide Upstream;
    BlankViews(more);
    KeptView(line, [Added] + more);
    KeptView(line, [Lost] + more);
    assert [Kept(line), Added] + more == [Kept(line)] + ([Added] + more);
    assert [Kept(line), Lost] + more == [Kept(line)] + ([Lost] + more);
    assert [line, []] + Upstream(more) == [line] + ([[]] + Upstream(more));
  }

  lemma {:induction false} TwoLinesUpstream(a: Bytes, b: Bytes)
    requires b != []
    ensures Upstream([Last([b, []])]) == [DONE, b, []]
    ensures Upstream([Kept(a), Added, Last([[]])]) == [a, DONE, []]
    ensures Upstream([Kept(a), Added, Kept(b), Added, Kept([])]) == [a, b, []]
  {
    UpstreamEnds(b);
    hide Upstream;
    var two := [Kept(b), Added] + [Kept([])];
    DataUpstream(a, [Last([[]])]);
    DataUpstream(b, [Kept([])]);
    DataUpstream(a, two);
    assert [Kept(a), Added] + [Last([[]])] == [Kept(a), Added, Last([[]])];
    assert [Kept(a), Added] + two == [Kept(a), Added, Kept(b), Added, Kept([])];
    assert [b] + [[]] == [b, []];
  }

  lemma TwoLinesTorn(a: Bytes, b: Bytes)
    requires IsDataField(a) && IsDataField(b)
    ensures TornFrom([Last([b, []])], 0)
    ensures TornFrom([Kept(a), Added, Last([[]])], 0)
    ensures TornFrom([Kept(a), Added, Kept(b), Added, Kept([])], 0)
  {
    hide IsDataField;
    var last, end, two := [Last([b, []])], [Kept(a), Added, Last([[]])], [Kept(a), Added, Kept(b), Added, Kept([])];
    assert last[0..] == last && end[0..] == end && two[0..] == two;
    assert TornBehind(last, 0);
    assert TornAt(end, 1, 2);
    assert TornAt(two, 1, 2);
  }

  /** So an event of any two data lines, byte for byte, tells the client something else. */
  lemma TwoLinesAreTorn(a: Bytes, b: Bytes)
    requires Clean(a) && Clean(b)
    ensures Messages(Output(ScanLines(TwoLines(a, b)))) != Messages(TwoLines(a, b))
  {
    var all := TwoLines(a, b);
    PrefixIsClean(a);
    PrefixIsClean(b);
    hide Messages, MessagesThroughDone, Output, ScanLines, Edits, EditsByLine, IsData, IsDataField, TornFrom;
    TwoLinesEdits(PREFIX + a, PREFIX + b);
    TwoLinesUpstream(PREFIX + a, PREFIX + b);
    TwoLinesTorn(PREFIX + a, PREFIX + b);
    AllThroughDone(all);
    assert Edits(all) == EditsByLine(all) by { BomElsewhere(EditsByLine(all), all); }
    TwoDataLinesAreTorn(all, 0);
  }

  lemma {:induction false} BomElsewhere(edits: seq<Edit>, b: Bytes)
    requires edits == EditsByLine(b)
    requires edits != [] && edits[0].Kept? ==> !(BOM <= edits[0].line)
    ensures Edits(b) == edits
  {
    hide EditsByLine;
  }

  // ---------------------------------------------------------------------------
  // Bare carriage returns

  /** A type, two carriage returns and a line feed, and the data. */
  function Typed(kind: Bytes, text: Bytes): Bytes {
    EVENT + [COLON, SPACE] + kind + [CR, CR, LF] + (PREFIX + text + [LF] + ([] + [LF] + []))
  }

  lemma KindField(kind: Bytes)
    ensures var line := EVENT + [COLON, SPACE] + kind;
            && Field(START, line) == Buffers([], kind, [])
            && line != [] && !(BOM <= line) && !IsData(line + [CR])
  {
    var line := EVENT + [COLON, SPACE] + kind;
    assert line[0] == 101 && (line + [CR])[0] == 101;
    assert BOM[0] != 101 && PREFIX[0] != 101;
    FindUnique(line, {COLON}, 5);
    assert line[..5] == EVENT && line[6..] == [SPACE] + kind && ([SPACE] + kind)[1..] == kind;
  }

  lemma {:induction false} TypedEdits(kind: Bytes, line: Bytes)
    requires Clean(kind) && Clean(line) && !IsData(kind + [CR]) && IsData(line)
    ensures var all := kind + [CR, CR, LF] + (line + [LF] + ([] + [LF] + []));
            && SplitLines(all) == [kind, [], line, []]
            && EditsByLine(all) == [Kept(kind), Lost]
                                   + if line == DONE then [Last([[]])] else [Kept(line), Added, Kept([])]
  {
    var behind := line + [LF] + ([] + [LF] + []);
    BlankSplits();
    hide EditsByLine, SplitLines, IsData;
    SplitAtLF(line, [] + [LF] + []);
    SplitAtCRLF([], behind);
    SplitAtCR(kind, [CR, LF] + behind);
    assert [] + [CR, LF] + behind == [CR, LF] + behind;
    assert kind + [CR] + ([CR, LF] + behind) == kind + [CR, CR, LF] + behind;
    EditsOfClean(line, [] + [LF] + []);
    EditsOfReturn(kind, behind);
  }

  lemma {:induction false} TypedUpstream(kind: Bytes, line: Bytes)
    requires line != []
    ensures Upstream([Kept(kind), Lost] + [Last([[]])]) == [kind, [], DONE, []]
    ensures Upstream([Kept(kind), Lost] + [Kept(line), Added, Kept([])]) == [kind, [], line, []]
  {
    UpstreamEnds(line);
    hide Upstream;
    DataUpstream(line, [Kept([])]);
    assert [Kept(line), Added] + [Kept([])] == [Kept(line), Added, Kept([])];
    DataUpstream(kind, [Last([[]])]);
    DataUpstream(kind, [Kept(line), Added, Kept([])]);
  }

  /** The type is lost upstream, with the blank line, and kept in the output. */
  lemma {:induction false} LostThenIff(kind: Bytes, s: Buffers, more: seq<Edit>)
    requires kind != [] && Field(START, kind) == s && s.data == []
    ensures Agree(START, START, [Kept(kind), Lost] + more) <==> Agree(Reset(s), s, more)
  {
    var edits := [Kept(kind), Lost] + more;
    assert edits[1..] == [Lost] + more && edits[1..][1..] == more;
    hide Field, Owes;
    assert edits[1..][0] == Lost;
  }

  lemma SameTypeIff(u: Buffers, p: Buffers)
    requires u.data == p.data != [] && u.id == p.id && u.kind == []
    ensures Pending(u) == Pending(p) <==> p.kind == [] || p.kind == MESSAGE
  {
  }

  lemma {:induction false} TypedAgreesIff(u: Buffers, p: Buffers, line: Bytes)
    requires u == Buffers([], [], []) && p.data == [] && p.id == [] && IsData(line)
    ensures Agree(u, p, [Kept(line), Added, Kept([])]) <==> p.kind == [] || p.kind == MESSAGE
    ensures line == DONE ==> (Agree(u, p, [Last([[]])]) <==> p.kind == [] || p.kind == MESSAGE)
  {
    DataGrows(u, line);
    DataGrows(p, line);
    FieldAlike(u, p, line);
    DataField(line);
    var u', p' := Field(u, line), Field(p, line);
    assert u'.kind == [] && p'.kind == p.kind;
    SameTypeIff(u', p');
    hide Field, FieldOf, Pending;
    var edits := [Kept(line), Added, Kept([])];
    assert edits[1..] == [Added, Kept([])] && [Added, Kept([])][1..] == [Kept([])] && [Kept([])][1..] == [];
    assert Owes(Pending(p'), u', Reset(p'), true, [Kept([])]) <==> Dispatched(u') == [Pending(p')];
  }

  /** What is behind the type, and its edits. */
  function TypedRest(line: Bytes): seq<Edit> {
    if line == DONE then [Last([[]])] else [Kept(line), Added, Kept([])]
  }

  lemma {:induction false} TypedStream(all: Bytes, name: Bytes, line: Bytes)
    requires all == name + [CR, CR, LF] + (line + [LF] + ([] + [LF] + []))
    requires Clean(name) && Clean(line) && !IsData(name + [CR]) && IsData(line) && line != [] && !(BOM <= name)
    ensures Edits(all) == [Kept(name), Lost] + TypedRest(line) && MessagesThroughDone(all) == Messages(all)
  {
    hide Messages, MessagesThroughDone, EditsByLine, Edits, IsData, Clean, SplitLines, Upstream;
    TypedEdits(name, line);
    TypedUpstream(name, line);
    AllThroughDone(all);
    BomElsewhere(EditsByLine(all), all);
  }

  lemma {:induction false} TypedKeptIff(all: Bytes, name: Bytes, line: Bytes, kind: Bytes)
    requires all == name + [CR, CR, LF] + (line + [LF] + ([] + [LF] + []))
    requires Clean(name) && Clean(line) && !IsData(name + [CR]) && IsData(line) && line != [] && !(BOM <= name)
    requires name != [] && Field(START, name) == Buffers([], kind, [])
    ensures Messages(Output(ScanLines(all))) == Messages(all) <==> kind == [] || kind == MESSAGE
  {
    hide Messages, MessagesThroughDone, Output, ScanLines, Edits, IsData, Clean, Agree, Field, TypedRest;
    TypedStream(all, name, line);
    ProxyKeepsMeaningIff(all);
    TypedRestIff(name, line, kind);
  }

  lemma {:induction false} TypedRestIff(name: Bytes, line: Bytes, kind: Bytes)
    requires IsData(line) && name != [] && Field(START, name) == Buffers([], kind, [])
    ensures Agree(START, START, [Kept(name), Lost] + TypedRest(line)) <==> kind == [] || kind == MESSAGE
  {
    var s := Field(START, name);
    hide Agree, Field;
    LostThenIff(name, s, TypedRest(line));
    TypedAgreesIff(Reset(s), s, line);
  }

  /** A bare carriage return is not kept in general, though all data lines are followed by blank lines: this
      event comes to the client with the type that it has lost upstream, so that it is told alike if and only
      if that type is the one that an event without a type has. */
  lemma {:induction false} BareReturnIsKeptIff(kind: Bytes, text: Bytes)
    requires Clean(kind) && Clean(text)
    ensures Messages(Output(ScanLines(Typed(kind, text)))) == Messages(Typed(kind, text))
            <==> kind == [] || kind == MESSAGE
  {
    PrefixIsClean(text);
    KindField(kind);
    var name, line := EVENT + [COLON, SPACE] + kind, PREFIX + text;
    assert Clean(name);
    hide Messages, Output, ScanLines, IsData, Clean, Field;
    TypedKeptIff(Typed(kind, text), name, line, kind);
  }
}
