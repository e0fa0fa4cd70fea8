// What the proxy's line rewriting does to the meaning of a stream: exactly which streams keep theirs.
module SseMeaning {
  import opened Sse
  import opened SseEdits

  // ---------------------------------------------------------------------------
  // When the messages are the same

  predicate IsDataField(line: Bytes) {
    line != [] && FieldOf(line).0 == DATA
  }

  /** What one side of the edits tells a client in state `s`. */
  function Told(s: Buffers, edits: seq<Edit>, upstream: bool): seq<Message> {
    Interpret(s, if upstream then Upstream(edits) else Client(edits))
  }

  /** The upstream, in state `u`, and the output, in state `p`, have told the same so far. A blank line of
      only one of them must find nothing to dispatch, or the other side owes the message from there on. */
  predicate Agree(u: Buffers, p: Buffers, edits: seq<Edit>)
    decreases |edits|, 1
  {
    if edits == [] then true
    else
      var rest := edits[1..];
      match edits[0]
      case Kept(line) =>
        if line == [] then Dispatched(u) == Dispatched(p) && Agree(Reset(u), Reset(p), rest)
        else Agree(Field(u, line), Field(p, line), rest)
      case Lost => if u.data == [] then Agree(Reset(u), p, rest) else Owes(Pending(u), p, Reset(u), false, rest)
      case Added => if p.data == [] then Agree(u, Reset(p), rest) else Owes(Pending(p), u, Reset(p), true, rest)
      case Last(more) =>
        var p' := Field(p, DONE);
        p'.data != [] && Ends(Pending(p'), Field(u, DONE), more)
  }

  /** One side, in state `s`, has yet to tell `m`, which the other side, in state `t`, has told: no data field
      may come before the blank line that dispatches it, and it must then still be `m`. */
  predicate Owes(m: Message, s: Buffers, t: Buffers, upstream: bool, edits: seq<Edit>)
    decreases |edits|, 0
  {
    if edits == [] then false
    else
      var rest := edits[1..];
      match edits[0]
      case Kept(line) =>
        if line == [] then Dispatched(s) == [m] && AgreeOn(upstream, Reset(s), Reset(t), rest)
        else !IsDataField(line) && Owes(m, Field(s, line), Field(t, line), upstream, rest)
      case Lost =>
        if upstream then Dispatched(s) == [m] && Agree(Reset(s), t, rest)
        else Owes(m, s, Reset(t), upstream, rest)
      case Added =>
        if upstream then Owes(m, s, Reset(t), upstream, rest)
        else Dispatched(s) == [m] && Agree(t, Reset(s), rest)
      case Last(_) => false
  }

  predicate AgreeOn(upstream: bool, s: Buffers, t: Buffers, edits: seq<Edit>)
    decreases |edits|, 2
  {
    if upstream then Agree(s, t, edits) else Agree(t, s, edits)
  }

  /** The end marker waits in the same way for the end of its event. */
  predicate Ends(m: Message, s: Buffers, lines: seq<Bytes>)
    decreases |lines|
  {
    if lines == [] then false
    else if lines[0] == [] then Dispatched(s) == [m]
    else !IsDataField(lines[0]) && Ends(m, Field(s, lines[0]), lines[1..])
  }

  lemma DataField(line: Bytes)
    requires IsData(line)
    ensures FieldOf(line) == (DATA, line[6..])
  {
    var i := Find(line, {COLON});
    assert line[4] == COLON && line[5] == SPACE;
    assert forall j :: 0 <= j < 4 ==> line[j] == DATA[j];
    assert i == 4;
    assert line[..4] == DATA;
    assert line[5..][1..] == line[6..];
  }

  lemma DataGrows(s: Buffers, line: Bytes)
    requires line != []
    ensures IsDataField(line) ==> |Field(s, line).data| > |s.data|
    ensures !IsDataField(line) ==> Field(s, line).data == s.data
    ensures IsData(line) ==> IsDataField(line)
  {
    if IsData(line) {
      DataField(line);
    }
  }

  /** Two states with the same data and the same identifier remain so. */
  lemma FieldAlike(u: Buffers, p: Buffers, line: Bytes)
    requires u.id == p.id
    ensures Field(u, line).id == Field(p, line).id
    ensures u.data == p.data ==> Field(u, line).data == Field(p, line).data
  {
  }

  lemma {:induction false} InterpretNext(s: Buffers, line: Bytes, rest: seq<Bytes>)
    ensures Interpret(s, [line] + rest)
            == if line == [] then Dispatched(s) + Interpret(Reset(s), rest) else Interpret(Field(s, line), rest)
  {
    assert ([line] + rest)[1..] == rest;
  }

  lemma {:induction false} ToldNothing(s: Buffers, upstream: bool)
    ensures Told(s, [], upstream) == [] && Interpret(s, []) == []
  {
  }

  lemma {:induction false} ToldBlank(s: Buffers)
    ensures Interpret(s, [[]]) == Dispatched(s)
  {
    var blank: seq<Bytes> := [[]];
    assert blank[1..] == [];
    assert Dispatched(s) + [] == Dispatched(s);
  }

  /** The first of the edits, on one side. */
  lemma {:induction false} ToldNext(s: Buffers, edits: seq<Edit>, upstream: bool)
    requires edits != []
    ensures var rest := edits[1..];
            Told(s, edits, upstream) ==
            match edits[0]
            case Kept(line) => if line == [] then Dispatched(s) + Told(Reset(s), rest, upstream)
                               else Told(Field(s, line), rest, upstream)
            case Lost => if upstream then Dispatched(s) + Told(Reset(s), rest, upstream) else Told(s, rest, upstream)
            case Added => if upstream then Told(s, rest, upstream) else Dispatched(s) + Told(Reset(s), rest, upstream)
            case Last(more) => if upstream then Interpret(Field(s, DONE), ThroughBlank(more))
                               else Dispatched(Field(s, DONE))
  {
    var rest := edits[1..];
    var lines := if upstream then Upstream(rest) else Client(rest);
    hide Interpret, Field, Dispatched;
    match edits[0]
    case Kept(line) => InterpretNext(s, line, lines);
    case Lost => InterpretNext(s, [], lines);
    case Added => InterpretNext(s, [], lines);
    case Last(more) =>
      InterpretNext(s, DONE, ThroughBlank(more));
      InterpretNext(s, DONE, [[]]);
      ToldBlank(Field(s, DONE));
      assert [DONE] + [[]] == [DONE, []];
  }

  /** Data that has outgrown `m` is not told as `m`. */
  lemma {:induction false} TooLong(m: Message, s: Buffers, lines: seq<Bytes>, others: seq<Message>)
    requires |s.data| > |m.data| + 1
    ensures Interpret(s, lines) != [m] + others
    decreases |lines|
  {
    if lines != [] {
      if lines[0] == [] {
        assert (Dispatched(s) + Interpret(Reset(s), lines[1..]))[0] == Pending(s);
        assert ([m] + others)[0] == m;
      } else {
        DataGrows(s, lines[0]);
        TooLong(m, Field(s, lines[0]), lines[1..], others);
      }
    }
  }

  lemma ConsSame<T>(a: T, x: seq<T>, b: T, y: seq<T>)
    ensures [a] + x == [b] + y <==> a == b && x == y
  {
    assert ([a] + x)[0] == a && ([b] + y)[0] == b;
    assert ([a] + x)[1..] == x && ([b] + y)[1..] == y;
  }

  lemma NothingFirst<T>(x: seq<T>)
    ensures [] + x == x
  {
  }

  lemma SameLengthPrefix<T>(a: seq<T>, x: seq<T>, b: seq<T>, y: seq<T>)
    requires |a| == |b|
    ensures a + x == b + y <==> a == b && x == y
  {
    assert (a + x)[..|a|] == a && (b + y)[..|b|] == b;
    assert (a + x)[|a|..] == x && (b + y)[|b|..] == y;
  }

  lemma {:induction false} EndsIff(m: Message, s: Buffers, lines: seq<Bytes>)
    requires |s.data| > |m.data|
    ensures Interpret(s, ThroughBlank(lines)) == [m] <==> Ends(m, s, lines)
    decreases |lines|
  {
    if lines != [] {
      var line, rest := lines[0], lines[1..];
      if line == [] {
        ToldBlank(s);
      } else {
        InterpretNext(s, line, ThroughBlank(rest));
        DataGrows(s, line);
        hide Interpret, Field, IsDataField;
        if IsDataField(line) {
          TooLong(m, Field(s, line), ThroughBlank(rest), []);
          assert [m] + [] == [m];
        } else {
          EndsIff(m, Field(s, line), rest);
        }
      }
    }
  }

  lemma {:induction false} DoneTooLong(m: Message, s: Buffers, upstream: bool, more: seq<Bytes>, others: seq<Message>)
    requires |s.data| > |m.data|
    ensures (if upstream then Interpret(Field(s, DONE), ThroughBlank(more)) else Dispatched(Field(s, DONE)))
            != [m] + others
  {
    DoneIsClean();
    DataGrows(s, DONE);
    hide Interpret, Field;
    TooLong(m, Field(s, DONE), if upstream then ThroughBlank(more) else [[]], others);
    ToldBlank(Field(s, DONE));
  }

  /** From the blank line of one side on: the other side, which still holds the message, tells the same if
      and only if it owes it. */
  lemma {:induction false} OwesIff(m: Message, s: Buffers, t: Buffers, upstream: bool, edits: seq<Edit>)
    requires |s.data| > |m.data| && t.data == [] && s.id == t.id
    ensures Told(s, edits, upstream) == [m] + Told(t, edits, !upstream) <==> Owes(m, s, t, upstream, edits)
    decreases |edits|, 0
  {
    if edits == [] {
      ToldNothing(s, upstream);
    } else {
      var rest := edits[1..];
      ToldNext(s, edits, upstream);
      ToldNext(t, edits, !upstream);
      assert Dispatched(t) == [];
      NothingFirst(Told(Reset(t), rest, !upstream));
      hide Told, Upstream, Client, ThroughBlank, Agree, Field, IsDataField, Interpret;
      match edits[0]
      case Kept(line) =>
        if line == [] {
          OwedIsTold(m, s, Reset(t), upstream, rest);
        } else {
          OwesOverLine(m, s, t, upstream, line, rest);
        }
      case Lost =>
        if upstream {
          OwedIsTold(m, s, t, upstream, rest);
        } else {
          OwesIff(m, s, Reset(t), upstream, rest);
        }
      case Added =>
        if upstream {
          OwesIff(m, s, Reset(t), upstream, rest);
        } else {
          OwedIsTold(m, s, t, upstream, rest);
        }
      case Last(more) => DoneTooLong(m, s, upstream, more, Told(t, edits, !upstream));
    }
  }

  lemma {:induction false} OwesOverLine(m: Message, s: Buffers, t: Buffers, upstream: bool, line: Bytes,
                                        rest: seq<Edit>)
    requires |s.data| > |m.data| && t.data == [] && s.id == t.id && line != []
    ensures Told(Field(s, line), rest, upstream) == [m] + Told(Field(t, line), rest, !upstream)
            <==> !IsDataField(line) && Owes(m, Field(s, line), Field(t, line), upstream, rest)
    decreases |rest|, 1
  {
    var s', t' := Field(s, line), Field(t, line);
    DataGrows(s, line);
    DataGrows(t, line);
    FieldAlike(s, t, line);
    hide Owes, Agree, Field, IsDataField, Upstream, Client, Interpret;
    if IsDataField(line) {
      TooLong(m, s', if upstream then Upstream(rest) else Client(rest), Told(t', rest, !upstream));
    } else {
      OwesIff(m, s', t', upstream, rest);
    }
  }

  lemma {:induction false} OwedIsTold(m: Message, s: Buffers, t: Buffers, upstream: bool, rest: seq<Edit>)
    requires s.data != [] && t.data == [] && s.id == t.id
    ensures Dispatched(s) + Told(Reset(s), rest, upstream) == [m] + Told(t, rest, !upstream)
            <==> Dispatched(s) == [m] && AgreeOn(upstream, Reset(s), t, rest)
    decreases |rest|, 2
  {
    if upstream {
      SameIff(Reset(s), t, rest);
    } else {
      SameIff(t, Reset(s), rest);
    }
    hide Told, Agree, Pending;
    ConsSame(Pending(s), Told(Reset(s), rest, upstream), m, Told(t, rest, !upstream));
  }

  /** From any two states that have the same to dispatch, the two sides tell the same if and only if the
      edits agree. */
  lemma {:induction false} SameIff(u: Buffers, p: Buffers, edits: seq<Edit>)
    requires u.data == p.data && u.id == p.id
    ensures Told(u, edits, true) == Told(p, edits, false) <==> Agree(u, p, edits)
    decreases |edits|, 1
  {
    if edits == [] {
      ToldNothing(u, true);
      ToldNothing(p, false);
    } else {
      var rest := edits[1..];
      ToldNext(u, edits, true);
      ToldNext(p, edits, false);
      hide Told, Upstream, Client, ThroughBlank, Owes, Interpret;
      match edits[0]
      case Kept(line) =>
        if line == [] {
          SameIff(Reset(u), Reset(p), rest);
          SameLengthPrefix(Dispatched(u), Told(Reset(u), rest, true), Dispatched(p), Told(Reset(p), rest, false));
        } else {
          FieldAlike(u, p, line);
          hide Field;
          SameIff(Field(u, line), Field(p, line), rest);
        }
      case Lost => LostIff(u, p, rest);
      case Added => AddedIff(u, p, rest);
      case Last(more) => LastIff(u, p, more);
    }
  }

  lemma {:induction false} LostIff(u: Buffers, p: Buffers, rest: seq<Edit>)
    requires u.data == p.data && u.id == p.id
    ensures Dispatched(u) + Told(Reset(u), rest, true) == Told(p, rest, false)
            <==> if u.data == [] then Agree(Reset(u), p, rest) else Owes(Pending(u), p, Reset(u), false, rest)
    decreases |rest|, 3
  {
    hide Told, Agree, Owes;
    if u.data == [] {
      SameIff(Reset(u), p, rest);
      NothingFirst(Told(Reset(u), rest, true));
    } else {
      OwesIff(Pending(u), p, Reset(u), false, rest);
    }
  }

  lemma {:induction false} AddedIff(u: Buffers, p: Buffers, rest: seq<Edit>)
    requires u.data == p.data && u.id == p.id
    ensures Told(u, rest, true) == Dispatched(p) + Told(Reset(p), rest, false)
            <==> if p.data == [] then Agree(u, Reset(p), rest) else Owes(Pending(p), u, Reset(p), true, rest)
    decreases |rest|, 3
  {
    hide Told, Agree, Owes;
    if p.data == [] {
      SameIff(u, Reset(p), rest);
      NothingFirst(Told(Reset(p), rest, false));
    } else {
      OwesIff(Pending(p), u, Reset(p), true, rest);
    }
  }

  lemma {:induction false} LastIff(u: Buffers, p: Buffers, more: seq<Bytes>)
    requires u.data == p.data && u.id == p.id
    ensures var u', p' := Field(u, DONE), Field(p, DONE);
            Interpret(u', ThroughBlank(more)) == Dispatched(p')
            <==> p'.data != [] && Ends(Pending(p'), u', more)
  {
    DoneIsClean();
    DataGrows(p, DONE);
    FieldAlike(u, p, DONE);
    hide Interpret, Field, Ends, ThroughBlank;
    EndsIff(Pending(Field(p, DONE)), Field(u, DONE), more);
  }

  // ---------------------------------------------------------------------------
  // From lines to bytes

  function StripFirst(lines: seq<Bytes>): seq<Bytes> {
    if lines != [] && BOM <= lines[0] then [lines[0][3..]] + lines[1..] else lines
  }

  lemma {:induction false} FindBehindBom(b: Bytes)
    requires BOM <= b
    ensures LineEnd(b) >= 3 && LineEnd(b[3..]) == LineEnd(b) - 3
  {
    var i := LineEnd(b);
    assert b[0] == BOM[0] && b[1] == BOM[1] && b[2] == BOM[2];
    assert i >= 3;
    FindUnique(b[3..], {LF, CR}, i - 3);
  }

  lemma SliceOfRest(b: Bytes, i: nat)
    requires 3 <= i <= |b|
    ensures b[3..][..i - 3] == b[..i][3..] && b[3..][i - 3..] == b[i..]
  {
  }

  lemma {:induction false} SplitBehindBom(b: Bytes, i: nat)
    requires BOM <= b && i == LineEnd(b) && i < |b|
    ensures SplitLines(b[3..]) == [b[..i][3..]] + SplitLines(b[i + BreakAt(b, i)..])
  {
    FindBehindBom(b);
    SplitNext(b[3..], i - 3);
    assert BreakAt(b[3..], i - 3) == BreakAt(b, i);
    hide LineEnd, SplitLines, BreakAt;
    SliceOfRest(b, i);
    SliceOfRest(b, i + BreakAt(b, i));
  }

  lemma {:induction false} BomIsInFirstLine(b: Bytes)
    ensures SplitLines(StripBom(b)) == StripFirst(SplitLines(b))
  {
    var i := LineEnd(b);
    if i == |b| {
      if BOM <= b {
        FindBehindBom(b);
      }
    } else {
      SplitNext(b, i);
      if BOM <= b {
        FindBehindBom(b);
        SplitBehindBom(b, i);
        assert BOM <= b[..i];
      } else {
        assert !(BOM <= b[..i]);
      }
    }
  }

  lemma {:induction false} TailIsSilent(s: Buffers, lines: seq<Bytes>, t: Bytes)
    requires t != []
    ensures Interpret(s, lines + [t]) == Interpret(s, lines)
    decreases |lines|
  {
    if lines == [] {
      assert [] + [t] == [t];
      InterpretNext(s, t, []);
      assert [t] + [] == [t];
    } else {
      var line, rest := lines[0], lines[1..];
      assert lines + [t] == [line] + (rest + [t]) && lines == [line] + rest;
      InterpretNext(s, line, rest + [t]);
      InterpretNext(s, line, rest);
      hide Interpret, Field;
      TailIsSilent(if line == [] then Reset(s) else Field(s, line), rest, t);
    }
  }

  /** An unterminated last line tells nothing, even as the first one. */
  lemma {:induction false} SilentTail(split: seq<Bytes>, tail: seq<Bytes>)
    requires |tail| <= 1 && [] !in tail
    ensures Interpret(START, StripFirst(split + tail)) == Interpret(START, StripFirst(split))
  {
    hide Interpret;
    if tail == [] {
      assert split + tail == split;
    } else if split == [] {
      assert split + tail == tail && tail[1..] == [];
      AloneIsSilent(StripFirst(tail)[0]);
      assert StripFirst(tail) == [StripFirst(tail)[0]];
      ToldNothing(START, true);
    } else {
      assert tail == [tail[0]];
      assert StripFirst(split + tail) == StripFirst(split) + tail;
      TailIsSilent(START, StripFirst(split), tail[0]);
    }
  }

  lemma {:induction false} AloneIsSilent(line: Bytes)
    ensures Interpret(START, [line]) == []
  {
    InterpretNext(START, line, []);
    assert [line] + [] == [line];
  }

  /** The edits begin with a line of both sides, or with the end marker. */
  lemma {:induction false} FirstEdit(b: Bytes)
    requires b != []
    ensures EditsByLine(b) != [] && (EditsByLine(b)[0].Kept? || EditsByLine(b)[0].Last?)
  {
    var line := FirstScanned(b);
    if line != DONE {
      var i := LineEnd(line + [LF]);
      FoundBeforeMore(line + [LF], [], i);
      SplitNext(line + [LF], i);
      assert Pieces(line) != [];
    }
  }

  lemma {:induction false} BomViews(edits: seq<Edit>)
    requires edits != [] ==> edits[0].Kept? || edits[0].Last?
    ensures Upstream(WithoutBom(edits)) == StripFirst(Upstream(edits))
    ensures Client(WithoutBom(edits)) == StripFirst(Client(edits))
  {
    if edits != [] {
      if edits[0].Kept? {
        KeptView(edits[0].line, edits[1..]);
        assert edits == [edits[0]] + edits[1..];
        if BOM <= edits[0].line {
          KeptView(edits[0].line[3..], edits[1..]);
        }
      } else {
        assert DONE[0] != BOM[0];
      }
    }
  }

  /** What the upstream tells through the end of the event with its first end marker. */
  function MessagesThroughDone(b: Bytes): seq<Message> {
    Interpret(START, StripFirst(ThroughDone(b)))
  }

  lemma {:induction false} UpstreamTold(b: Bytes)
    ensures MessagesThroughDone(b) == Told(START, Edits(b), true)
  {
    if b != [] {
      FirstEdit(b);
    }
    hide Interpret, StripFirst, Upstream, EditsByLine, WithoutBom, ThroughDone;
    BomViews(EditsByLine(b));
    var tail := UpstreamSplits(b);
    SilentTail(ThroughDone(b), tail);
  }

  lemma {:induction false} ClientTold(b: Bytes)
    ensures Messages(Output(ScanLines(b))) == Told(START, Edits(b), false)
  {
    if b != [] {
      FirstEdit(b);
    }
    hide Interpret, StripFirst, Client, EditsByLine, WithoutBom, Output, ScanLines, SplitLines, StripBom;
    BomViews(EditsByLine(b));
    OutputSplits(b);
    BomIsInFirstLine(Output(ScanLines(b)));
  }

  predicate KeepsStream(b: Bytes) {
    Agree(START, START, Edits(b))
  }

  /** For every upstream: what a client makes of the proxied bytes is what it would make of the upstream
      through its first end marker, if and only if the two sides agree line by line. */
  lemma {:induction false} ProxyKeepsMeaningIff(b: Bytes)
    ensures Messages(Output(ScanLines(b))) == MessagesThroughDone(b) <==> KeepsStream(b)
  {
    hide Messages, MessagesThroughDone, Told, Agree, Edits, Output, ScanLines;
    UpstreamTold(b);
    ClientTold(b);
    SameIff(START, START, Edits(b));
  }

  // ---------------------------------------------------------------------------
  // What is kept is a beginning

  lemma {:induction false} ThroughBlankIsPrefix(lines: seq<Bytes>)
    ensures ThroughBlank(lines) <= lines
  {
    if lines != [] && lines[0] != [] {
      ThroughBlankIsPrefix(lines[1..]);
    }
  }

  ghost predicate IsLineEnd(b: Bytes, k: nat) {
    k <= |b| && (k == |b| || k == 0 || b[k - 1] == LF)
  }

  lemma LineEndBehind(raw: Bytes, rest: Bytes, k: nat)
    requires IsLineEnd(rest, k)
    ensures IsLineEnd(raw + [LF] + rest, |raw| + 1 + k)
  {
  }

  lemma {:induction false} AtLineEnd(b: Bytes)
    ensures IsLineEnd(b, DoneEnd(b))
    decreases |b|
  {
    hide FirstScanned, Behind;
    if LF in b {
      var raw := FirstTerminated(b);
      hide IsLineEnd, DoneEnd;
      DoneEndBehind(b, raw);
      AtLineEnd(Behind(b));
      LineStart(Behind(b));
      LineEndBehind(raw, Behind(b), if FirstScanned(b) == DONE then 0 else DoneEnd(Behind(b)));
    } else if b != [] {
      LastUnterminated(b);
    }
  }

  lemma LineStart(b: Bytes)
    ensures IsLineEnd(b, 0)
  {
  }

  lemma {:induction false} SplitAt(b: Bytes, k: nat)
    requires IsLineEnd(b, k)
    ensures SplitLines(b) == SplitLines(b[..k]) + SplitLines(b[k..])
  {
    SplitNothing([]);
    hide SplitLines;
    assert b == b[..k] + b[k..];
    if k == |b| {
      assert b[..k] == b && b[k..] == [];
      assert SplitLines(b) + [] == SplitLines(b);
    } else {
      SplitConcat(b[..k], b[k..]);
    }
  }

  lemma {:induction false} HeadIsPrefix(head: seq<Bytes>, rest: seq<Bytes>) returns (more: seq<Bytes>)
    ensures head + rest == head + ThroughBlank(rest) + more
  {
    ThroughBlankIsPrefix(rest);
    hide ThroughBlank;
    more := rest[|ThroughBlank(rest)|..];
    assert ThroughBlank(rest) + more == rest;
    Grouped(head, ThroughBlank(rest), more);
  }

  lemma {:induction false} ThroughDoneIsPrefix(b: Bytes) returns (more: seq<Bytes>)
    ensures SplitLines(b) == ThroughDone(b) + more
  {
    AtLineEnd(b);
    hide SplitLines, DoneEnd, ThroughBlank, IsLineEnd;
    SplitAt(b, DoneEnd(b));
    more := HeadIsPrefix(SplitLines(b[..DoneEnd(b)]), SplitLines(b[DoneEnd(b)..]));
  }

  lemma {:induction false} InterpretGrows(s: Buffers, lines: seq<Bytes>, more: seq<Bytes>)
    ensures Interpret(s, lines) <= Interpret(s, lines + more)
    decreases |lines|
  {
    if lines != [] {
      assert (lines + more)[1..] == lines[1..] + more;
      InterpretGrows(if lines[0] == [] then Reset(s) else Field(s, lines[0]), lines[1..], more);
    }
  }

  lemma {:induction false} StripMore(lines: seq<Bytes>, more: seq<Bytes>)
    requires lines != []
    ensures StripFirst(lines + more) == StripFirst(lines) + more
  {
  }

  lemma {:induction false} DoneToldFirst(b: Bytes)
    ensures MessagesThroughDone(b) <= Messages(b)
  {
    var lines := ThroughDone(b);
    var more := ThroughDoneIsPrefix(b);
    BomIsInFirstLine(b);
    if lines == [] {
      ToldNothing(START, true);
    } else {
      hide Interpret, StripFirst, ThroughDone, SplitLines, StripBom;
      StripMore(lines, more);
      InterpretGrows(START, StripFirst(lines), more);
    }
  }

  lemma {:induction false} NoDoneEnd(b: Bytes)
    requires DONE !in ScanLines(b)
    ensures DoneEnd(b) == |b|
    decreases |b|
  {
    if b != [] {
      ScanNext(b);
      assert ScanLines(b)[0] == FirstScanned(b);
      assert forall l :: l in ScanLines(Behind(b)) ==> l in ScanLines(b);
      NoDoneEnd(Behind(b));
    }
  }

  /** Without an end marker that is all the upstream has to tell. */
  lemma {:induction false} NothingBehindDone(b: Bytes)
    requires DONE !in ScanLines(b)
    ensures MessagesThroughDone(b) == Messages(b)
  {
    NoDoneEnd(b);
    BomIsInFirstLine(b);
    SplitNothing([]);
    hide SplitLines, Interpret, StripFirst, StripBom;
    assert b[..|b|] == b && b[|b|..] == [];
    assert SplitLines(b) + [] == SplitLines(b);
  }

  /** Where the meaning is kept, the client is told the first messages of the upstream. */
  lemma {:induction false} KeptIsPrefix(b: Bytes)
    requires KeepsStream(b)
    ensures Messages(Output(ScanLines(b))) <= Messages(b)
  {
    hide Messages, MessagesThroughDone, KeepsStream, Output, ScanLines;
    ProxyKeepsMeaningIff(b);
    DoneToldFirst(b);
  }

  // ---------------------------------------------------------------------------
  // How many messages there are

  function LostIn(edits: seq<Edit>): nat {
    if edits == [] then 0 else (if edits[0].Lost? then 1 else 0) + LostIn(edits[1..])
  }

  lemma {:induction false} AtMostOne(s: Buffers, lines: seq<Bytes>)
    ensures |Interpret(s, ThroughBlank(lines))| <= 1
    decreases |lines|
  {
    if lines != [] {
      var line, rest := lines[0], lines[1..];
      if line == [] {
        ToldBlank(s);
      } else {
        InterpretNext(s, line, ThroughBlank(rest));
        hide Interpret, Field;
        AtMostOne(Field(s, line), rest);
      }
    }
  }

  lemma {:induction false} NoFewerTold(u: Buffers, p: Buffers, edits: seq<Edit>)
    ensures |Told(u, edits, true)|
            <= |Told(p, edits, false)| + LostIn(edits) + if u.data != [] && p.data == [] then 1 else 0
    decreases |edits|
  {
    if edits == [] {
      ToldNothing(u, true);
    } else {
      var rest := edits[1..];
      ToldNext(u, edits, true);
      ToldNext(p, edits, false);
      hide Told, Interpret, Field, Upstream, Client, ThroughBlank, Pending;
      match edits[0]
      case Kept(line) =>
        if line == [] {
          NoFewerTold(Reset(u), Reset(p), rest);
        } else {
          DataGrows(u, line);
          DataGrows(p, line);
          hide IsDataField;
          NoFewerTold(Field(u, line), Field(p, line), rest);
        }
      case Lost => NoFewerTold(Reset(u), p, rest);
      case Added => NoFewerTold(u, Reset(p), rest);
      case Last(more) =>
        DoneIsClean();
        DataGrows(p, DONE);
        AtMostOne(Field(u, DONE), more);
    }
  }

  /** The client is told no fewer messages than the upstream has through its first end marker, but for at
      most one for each blank line lost. */
  lemma {:induction false} NoFewerMessages(b: Bytes)
    ensures |MessagesThroughDone(b)| <= |Messages(Output(ScanLines(b)))| + LostIn(Edits(b))
  {
    hide Messages, MessagesThroughDone, Told, LostIn, Edits, Output, ScanLines;
    UpstreamTold(b);
    ClientTold(b);
    NoFewerTold(START, START, Edits(b));
  }

  /** The scanned lines through the first end marker that still end in a carriage return. */
  function Returns(lines: seq<Bytes>): nat {
    if lines == [] then 0
    else (if EndsInCR(lines[0]) then 1 else 0) + if lines[0] == DONE then 0 else Returns(lines[1..])
  }

  lemma {:induction false} LostInBoth(a: seq<Edit>, b: seq<Edit>)
    ensures LostIn(a + b) == LostIn(a) + LostIn(b)
    decreases |a|
  {
    if a == [] {
      assert a + b == b;
    } else {
      assert (a + b)[1..] == a[1..] + b;
      LostInBoth(a[1..], b);
    }
  }

  lemma {:induction false} KeptIsNotLost(lines: seq<Bytes>)
    ensures LostIn(AllKept(lines)) == 0
  {
    if lines != [] {
      KeptIsNotLost(lines[1..]);
      assert AllKept(lines)[1..] == AllKept(lines[1..]);
    }
  }

  lemma {:induction false} LostInLine(line: Bytes)
    ensures LostIn(LineEdits(line)) == if EndsInCR(line) then 1 else 0
  {
    var lost: seq<Edit> := if EndsInCR(line) then [Lost] else [];
    var added: seq<Edit> := if IsData(line) then [Added] else [];
    KeptIsNotLost(Pieces(line));
    assert lost != [] ==> lost[1..] == [];
    assert added != [] ==> added[1..] == [];
    assert LostIn([]) == 0;
    assert LostIn(lost) == (if EndsInCR(line) then 1 else 0) && LostIn(added) == 0;
    hide AllKept, Pieces, LostIn;
    LostInBoth(AllKept(Pieces(line)), lost);
    LostInBoth(AllKept(Pieces(line)) + lost, added);
  }

  lemma {:induction false} WithoutBomSameLost(edits: seq<Edit>)
    ensures LostIn(WithoutBom(edits)) == LostIn(edits)
  {
    if edits != [] && edits[0].Kept? {
      assert WithoutBom(edits)[1..] == edits[1..];
    }
  }

  lemma {:induction false} LostByLine(b: Bytes)
    ensures LostIn(EditsByLine(b)) == Returns(ScanLines(b))
    decreases |b|
  {
    if b != [] {
      var line := FirstScanned(b);
      ScanNext(b);
      assert ([line] + ScanLines(Behind(b)))[1..] == ScanLines(Behind(b));
      if line != DONE {
        hide ScanLines, FirstScanned, Behind, LineEdits, EndsInCR;
        LostByLine(Behind(b));
        LostInLine(line);
        LostInBoth(LineEdits(line), EditsByLine(Behind(b)));
      } else {
        DoneIsClean();
      }
    }
  }

  /** A blank line is lost exactly where a scanned line still ends in a carriage return. */
  lemma {:induction false} LostAreReturns(b: Bytes)
    ensures LostIn(Edits(b)) == Returns(ScanLines(b))
  {
    hide LostIn, Returns, ScanLines, EditsByLine, WithoutBom;
    LostByLine(b);
    WithoutBomSameLost(EditsByLine(b));
  }
}
