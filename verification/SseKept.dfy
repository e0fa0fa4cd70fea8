// Streams that do keep their meaning on the way through the proxy.
module SseKept {
  import opened Sse
  import opened SseEdits
  import opened SseMeaning

  ghost predicate BlankAfterData(lines: seq<Bytes>) {
    forall i :: 0 <= i < |lines| && IsData(lines[i]) ==> i + 1 < |lines| && lines[i + 1] == []
  }

  /** No line but a data line still ends in a carriage return. */
  ghost predicate ReturnsInData(lines: seq<Bytes>) {
    forall l :: l in lines && EndsInCR(l) ==> IsData(l)
  }

  /** The state after some lines of both sides. */
  function After(s: Buffers, lines: seq<Bytes>): Buffers
    decreases |lines|
  {
    if lines == [] then s else After(if lines[0] == [] then Reset(s) else Field(s, lines[0]), lines[1..])
  }

  lemma {:induction false} AgreeKept(s: Buffers, line: Bytes, more: seq<Edit>)
    ensures Agree(s, s, [Kept(line)] + more)
            <==> var s' := if line == [] then Reset(s) else Field(s, line); Agree(s', s', more)
  {
    assert ([Kept(line)] + more)[1..] == more;
  }

  lemma {:induction false} AgreeAllKept(s: Buffers, lines: seq<Bytes>, more: seq<Edit>)
    ensures Agree(s, s, AllKept(lines) + more) <==> Agree(After(s, lines), After(s, lines), more)
    decreases |lines|
  {
    if lines == [] {
      assert AllKept(lines) + more == more;
    } else {
      var rest := AllKept(lines[1..]) + more;
      assert AllKept(lines) + more == [Kept(lines[0])] + rest;
      hide Agree, Field, AllKept;
      AgreeKept(s, lines[0], rest);
      AgreeAllKept(if lines[0] == [] then Reset(s) else Field(s, lines[0]), lines[1..], more);
    }
  }

  /** The blank line that is added to a data line dispatches what the next blank line, or the lost one,
      dispatches upstream. */
  lemma {:induction false} AddedBeforeBlank(s: Buffers, more: seq<Edit>)
    requires Agree(Reset(s), Reset(s), more)
    ensures Agree(s, s, [Added] + ([Kept([])] + more))
    ensures Agree(s, s, [Lost] + ([Added] + more))
  {
    var blank, added := [Kept([])] + more, [Added] + more;
    assert ([Added] + blank)[1..] == blank && ([Lost] + added)[1..] == added;
    assert blank[1..] == more && added[1..] == more;
    hide Field, IsDataField;
    assert Reset(Reset(s)) == Reset(s);
    if s.data == [] {
      assert Agree(s, Reset(s), blank);
      assert Agree(Reset(s), s, added);
    } else {
      assert AgreeOn(true, Reset(s), Reset(Reset(s)), more);
      assert Owes(Pending(s), s, Reset(s), true, blank);
      assert Owes(Pending(s), s, Reset(s), false, added);
    }
  }

  lemma BlankLineEdits()
    ensures LineEdits([]) == [Kept([])]
  {
    SplitAtLF([], []);
    SplitNothing([]);
    assert [] + [LF] + [] == [] + [LF];
    assert AllKept([[]]) == [Kept([])];
  }

  lemma {:induction false} BlankAfterDone(b: Bytes)
    requires b != [] && FirstScanned(b) == []
    ensures SplitLines(b) != [] && SplitLines(b)[0] == []
  {
    var i := Find(b, {LF});
    assert b[..i] == [] || b[..i] == [CR];
    assert b[0] in {LF, CR} by {
      if i == 0 {
        assert b[0] == LF;
      } else {
        assert b[..i][0] == b[0] && b[..i] == [CR];
      }
    }
    assert LineEnd(b) == 0;
  }

  lemma BlankNext(lines: seq<Bytes>)
    requires lines != [] && BlankAfterData(lines) && ReturnsInData(lines)
    ensures BlankAfterData(lines[1..]) && ReturnsInData(lines[1..])
    ensures IsData(lines[0]) ==> |lines| > 1 && lines[1] == []
    ensures EndsInCR(lines[0]) ==> IsData(lines[0])
  {
    var rest := lines[1..];
    assert forall i :: 0 <= i < |rest| ==> rest[i] == lines[i + 1];
  }

  ghost predicate Fit(b: Bytes) {
    BlankAfterData(ScanLines(b)) && ReturnsInData(ScanLines(b))
  }

  lemma {:induction false} BlankLater(b: Bytes)
    requires b != [] && Fit(b)
    ensures Fit(Behind(b))
    ensures IsData(FirstScanned(b)) ==> Behind(b) != [] && FirstScanned(Behind(b)) == []
    ensures EndsInCR(FirstScanned(b)) ==> IsData(FirstScanned(b))
  {
    var lines, rest := ScanLines(b), ScanLines(Behind(b));
    ScanNext(b);
    assert ScanLines([]) == [];
    if Behind(b) != [] {
      ScanNext(Behind(b));
    }
    hide ScanLines, FirstScanned, Behind, IsData, EndsInCR, BlankAfterData, ReturnsInData;
    assert lines[0] == FirstScanned(b) && lines[1..] == rest;
    BlankNext(lines);
  }

  lemma {:induction false} EndsAtOnce(s: Buffers, more: seq<Bytes>)
    requires more != [] && more[0] == []
    ensures Agree(s, s, [Last(more)])
  {
    DoneIsClean();
    DataGrows(s, DONE);
    hide Field, IsDataField;
    assert Ends(Pending(Field(s, DONE)), Field(s, DONE), more);
  }

  lemma {:induction false} BlankAfterDataAgrees(s: Buffers, b: Bytes)
    requires Fit(b)
    ensures Agree(s, s, EditsByLine(b))
    decreases |b|
  {
    if b != [] {
      var line, rest := FirstScanned(b), Behind(b);
      hide Fit, Agree, SplitLines, Behind, FirstScanned;
      BlankLater(b);
      if line == DONE {
        DoneIsClean();
        BlankAfterDone(rest);
        EndsAtOnce(s, SplitLines(rest));
      } else {
        hide IsData, EndsInCR, LineEdits;
        var behind := LineEditsThen(line, EditsByLine(rest));
        AgreeAllKept(s, Pieces(line), behind);
        BlankAfterDataBehind(After(s, Pieces(line)), b);
      }
    }
  }

  lemma {:induction false} BlankAfterDataBehind(s: Buffers, b: Bytes)
    requires b != [] && Fit(b)
    ensures var line := FirstScanned(b);
            Agree(s, s, (if EndsInCR(line) then [Lost] else [])
                        + ((if IsData(line) then [Added] else []) + EditsByLine(Behind(b))))
    decreases |b|, 0
  {
    var line, rest := FirstScanned(b), Behind(b);
    hide Fit, Agree, Behind, FirstScanned, IsData, EndsInCR, LineEdits;
    BlankLater(b);
    if !IsData(line) {
      BlankAfterDataAgrees(s, rest);
      assert [] + ([] + EditsByLine(rest)) == EditsByLine(rest);
    } else if EndsInCR(line) {
      BlankAfterDataAgrees(Reset(s), rest);
      AddedBeforeBlank(s, EditsByLine(rest));
    } else {
      EditsOfBlank(rest);
      BlankLater(rest);
      BlankAfterDataAgrees(Reset(s), Behind(rest));
      AddedBeforeBlank(s, EditsByLine(Behind(rest)));
      assert [] + ([Added] + EditsByLine(rest)) == [Added] + EditsByLine(rest);
    }
  }

  lemma {:induction false} EditsOfBlank(b: Bytes)
    requires b != [] && FirstScanned(b) == []
    ensures EditsByLine(b) == [Kept([])] + EditsByLine(Behind(b))
  {
    BlankLineEdits();
  }

  lemma BomIsNoField(s: Buffers, line: Bytes)
    requires BOM <= line
    ensures Field(s, line) == s && line != []
  {
    assert line[0] == 0xEF;
    var name := FieldOf(line).0;
    assert name != [] && name[0] == 0xEF;
    assert DATA[0] != 0xEF && EVENT[0] != 0xEF && ID[0] != 0xEF;
  }

  lemma {:induction false} BomAgrees(b: Bytes, line: Bytes, rest: seq<Edit>)
    requires Fit(b) && EditsByLine(b) == [Kept(line)] + rest && BOM <= line
    ensures Agree(START, START, [Kept(line[3..])] + rest)
  {
    var s := if line[3..] == [] then Reset(START) else Field(START, line[3..]);
    BlankAfterDataAgrees(s, b);
    BomIsNoField(s, line);
    hide Field, Fit, EditsByLine, Agree;
    AgreeKept(s, line, rest);
    AgreeKept(START, line[3..], rest);
  }

  lemma {:induction false} BlankAfterDataKeeps(b: Bytes)
    requires Fit(b)
    ensures KeepsStream(b)
  {
    var edits := EditsByLine(b);
    hide Fit, EditsByLine, Agree;
    if edits != [] && edits[0].Kept? && BOM <= edits[0].line {
      assert edits == [Kept(edits[0].line)] + edits[1..];
      BomAgrees(b, edits[0].line, edits[1..]);
    } else {
      BlankAfterDataAgrees(START, b);
    }
  }

  /** A stream whose data lines are each followed by a blank line, and whose other lines do not still end in
      a carriage return once they are scanned, reaches the client with its meaning: through its first end
      marker, and whole if it has none. Carriage returns elsewhere, as inside a comment, do no harm. */
  lemma {:induction false} BlankAfterDataIsKept(b: Bytes)
    requires BlankAfterData(ScanLines(b)) && ReturnsInData(ScanLines(b))
    ensures Messages(Output(ScanLines(b))) == MessagesThroughDone(b)
    ensures DONE !in ScanLines(b) ==> Messages(Output(ScanLines(b))) == Messages(b)
  {
    BlankAfterDataKeeps(b);
    hide Messages, MessagesThroughDone, KeepsStream, Output, ScanLines;
    ProxyKeepsMeaningIff(b);
    if DONE !in ScanLines(b) {
      NothingBehindDone(b);
    }
  }

  ghost predicate NoBareCR(b: Bytes) {
    forall i :: 0 <= i < |b| && b[i] == CR ==> i + 1 < |b| && b[i + 1] == LF
  }

  lemma {:induction false} FirstIsClean(b: Bytes)
    requires b != [] && NoBareCR(b)
    ensures Clean(FirstScanned(b)) && NoBareCR(Behind(b))
  {
    var i, line := Find(b, {LF}), FirstScanned(b);
    forall k | 0 <= k < |line|
      ensures line[k] != CR && line[k] != LF
    {
      assert line[k] == b[k] && b[k] !in {LF};
      assert k + 1 < i ==> b[k + 1] !in {LF};
      assert k + 1 == i ==> b[..i][i - 1] == b[k];
    }
    var n := |b| - |Behind(b)|;
    forall k | 0 <= k < |Behind(b)| && Behind(b)[k] == CR
      ensures k + 1 < |Behind(b)| && Behind(b)[k + 1] == LF
    {
      assert b[n + k] == CR;
    }
  }

  /** Without bare carriage returns there is none left in a scanned line. */
  lemma {:induction false} NoBareReturns(b: Bytes)
    requires NoBareCR(b)
    ensures forall l :: l in ScanLines(b) ==> Clean(l)
    ensures ReturnsInData(ScanLines(b))
    decreases |b|
  {
    if b != [] {
      ScanNext(b);
      FirstIsClean(b);
      hide ScanLines, FirstScanned, Behind, NoBareCR, IsData;
      NoBareReturns(Behind(b));
    }
  }
}
