// The lines that a client finds in the upstream and in what the proxy writes for it, side by side.
module SseEdits {
  import opened Sse

  // ---------------------------------------------------------------------------
  // The lines of a client

  ghost predicate Clean(line: Bytes) {
    LF !in line && CR !in line
  }

  predicate EndsInCR(line: Bytes) {
    line != [] && line[|line| - 1] == CR
  }

  lemma {:induction false} BreakIsFirst(line: Bytes, b: Bytes)
    requires Clean(line) && line <= b && |line| < |b| && b[|line|] in {LF, CR}
    ensures LineEnd(b) == |line| && b[..|line|] == line
  {
    forall j | 0 <= j < |line|
      ensures b[j] !in {LF, CR}
    {
      assert b[j] == line[j] && line[j] in line;
    }
    FindUnique(b, {LF, CR}, |line|);
  }

  lemma {:induction false} SplitAtLF(line: Bytes, rest: Bytes)
    requires Clean(line)
    ensures SplitLines(line + [LF] + rest) == [line] + SplitLines(rest)
  {
    var b := line + [LF] + rest;
    BreakIsFirst(line, b);
    assert b[|line| + 1..] == rest;
  }

  lemma {:induction false} SplitAtCR(line: Bytes, rest: Bytes)
    requires Clean(line) && (rest == [] || rest[0] != LF)
    ensures SplitLines(line + [CR] + rest) == [line] + SplitLines(rest)
  {
    var b := line + [CR] + rest;
    BreakIsFirst(line, b);
    assert b[|line| + 1..] == rest;
  }

  lemma {:induction false} SplitAtCRLF(line: Bytes, rest: Bytes)
    requires Clean(line)
    ensures SplitLines(line + [CR, LF] + rest) == [line] + SplitLines(rest)
  {
    var b := line + [CR, LF] + rest;
    BreakIsFirst(line, b);
    assert b[|line| + 2..] == rest;
  }

  lemma {:induction false} SplitNothing(line: Bytes)
    requires Clean(line)
    ensures SplitLines(line) == []
  {
    forall j | 0 <= j < |line|
      ensures line[j] !in {LF, CR}
    {
      assert line[j] in line;
    }
    FindUnique(line, {LF, CR}, |line|);
  }

  lemma FirstReturn(b: Bytes) returns (line: Bytes, rest: Bytes)
    requires LF !in b && CR in b
    ensures b == line + [CR] + rest && Clean(line) && LF !in rest
  {
    var i := Find(b, {CR});
    assert i < |b|;
    line, rest := b[..i], b[i + 1..];
    forall x | x in line
      ensures x != CR
    {
      var k :| 0 <= k < i && b[k] == x;
    }
  }

  lemma {:induction false} SplitNext(b: Bytes, i: nat)
    requires i == LineEnd(b) && i < |b|
    ensures SplitLines(b) == [b[..i]] + SplitLines(b[i + BreakAt(b, i)..])
  {
    hide LineEnd, BreakAt;
  }

  lemma {:induction false} FoundBeforeMore(x: Bytes, y: Bytes, i: nat)
    requires x != [] && x[|x| - 1] == LF && i == LineEnd(x)
    ensures i < |x| && i == LineEnd(x + y) && BreakAt(x + y, i) == BreakAt(x, i)
  {
    assert x[|x| - 1] in {LF, CR};
    FindUnique(x + y, {LF, CR}, i);
  }

  lemma BehindMore(x: Bytes, y: Bytes, i: nat)
    requires i <= |x|
    ensures (x + y)[..i] == x[..i] && (x + y)[i..] == x[i..] + y
  {
  }

  lemma BehindEnds(x: Bytes, i: nat)
    requires x != [] && x[|x| - 1] == LF && i <= |x|
    ensures x[i..] == [] || x[i..][|x[i..]| - 1] == LF
  {
  }

  lemma {:induction false} SplitMore(x: Bytes, y: Bytes, i: nat, rest: Bytes)
    requires x != [] && x[|x| - 1] == LF && i == LineEnd(x) < |x| && rest == x[i + BreakAt(x, i)..]
    requires SplitLines(rest + y) == SplitLines(rest) + SplitLines(y)
    ensures SplitLines(x + y) == SplitLines(x) + SplitLines(y)
  {
    hide LineEnd, SplitLines, BreakAt;
    FoundBeforeMore(x, y, i);
    SplitNext(x, i);
    SplitNext(x + y, i);
    BehindMore(x, y, i);
    BehindMore(x, y, i + BreakAt(x, i));
    Grouped([x[..i]], SplitLines(rest), SplitLines(y));
  }

  /** Behind a line feed the splitting starts afresh. */
  lemma {:induction false} SplitConcat(x: Bytes, y: Bytes)
    requires x == [] || x[|x| - 1] == LF
    ensures SplitLines(x + y) == SplitLines(x) + SplitLines(y)
    decreases |x|
  {
    if x == [] {
      SplitNothing([]);
      hide SplitLines;
      assert x + y == y;
      assert [] + SplitLines(y) == SplitLines(y);
    } else {
      hide LineEnd, SplitLines, BreakAt;
      var i := LineEnd(x);
      FoundBeforeMore(x, y, i);
      var rest := x[i + BreakAt(x, i)..];
      BehindEnds(x, i + BreakAt(x, i));
      SplitConcat(rest, y);
      SplitMore(x, y, i, rest);
    }
  }

  /** A second carriage return before the line feed ends one more line, a blank one. */
  lemma {:induction false} SecondReturn(line: Bytes)
    requires LF !in line
    ensures SplitLines(line + [CR, LF]) == SplitLines(line + [LF]) + if EndsInCR(line) then [[]] else []
    decreases |line|
  {
    hide SplitLines;
    SplitNothing([]);
    if CR !in line {
      SplitAtCRLF(line, []);
      SplitAtLF(line, []);
      assert line + [CR, LF] + [] == line + [CR, LF] && line + [LF] + [] == line + [LF];
    } else {
      var first, rest := FirstReturn(line);
      if rest == [] {
        SplitAtCR(first, [CR, LF]);
        SplitAtCRLF([], []);
        SplitAtCRLF(first, []);
        assert line + [CR, LF] == first + [CR] + [CR, LF];
        assert line + [LF] == first + [CR, LF] + [];
        assert [] + [CR, LF] + [] == [CR, LF];
      } else {
        SplitAtCR(first, rest + [CR, LF]);
        SplitAtCR(first, rest + [LF]);
        SecondReturn(rest);
        assert line + [CR, LF] == first + [CR] + (rest + [CR, LF]);
        assert line + [LF] == first + [CR] + (rest + [LF]);
        assert rest[|rest| - 1] == line[|line| - 1];
      }
    }
  }

  /** An unterminated line is one line less. */
  lemma {:induction false} Unterminated(b: Bytes) returns (tail: seq<Bytes>)
    requires LF !in b && b != []
    ensures SplitLines(b + [LF]) == SplitLines(b) + tail
    ensures |tail| <= 1 && [] !in tail
    decreases |b|
  {
    hide SplitLines;
    SplitNothing([]);
    if CR !in b {
      SplitAtLF(b, []);
      SplitNothing(b);
      assert b + [LF] + [] == b + [LF];
      tail := [b];
    } else {
      var first, rest := FirstReturn(b);
      if rest == [] {
        SplitAtCR(first, []);
        SplitAtCRLF(first, []);
        assert b + [LF] == first + [CR, LF] + [];
        tail := [];
      } else {
        SplitAtCR(first, rest);
        SplitAtCR(first, rest + [LF]);
        tail := Unterminated(rest);
        assert b + [LF] == first + [CR] + (rest + [LF]);
        Grouped([first], SplitLines(rest), tail);
      }
    }
  }

  lemma Grouped<T>(a: seq<T>, b: seq<T>, c: seq<T>)
    ensures a + (b + c) == a + b + c
  {
  }

  // ---------------------------------------------------------------------------
  // The lines of the two streams, side by side

  /** A line of both streams; a blank line only of the upstream; a blank line that the proxy has added; and
      the end marker, behind which only the upstream goes on, with `rest`. */
  datatype Edit = Kept(line: Bytes) | Lost | Added | Last(rest: seq<Bytes>)

  /** The lines up to the first blank one, that one included. */
  function ThroughBlank(lines: seq<Bytes>): seq<Bytes> {
    if lines == [] then []
    else if lines[0] == [] then [[]]
    else [lines[0]] + ThroughBlank(lines[1..])
  }

  /** The lines of the upstream through the end of the event with the end marker. */
  function Upstream(edits: seq<Edit>): seq<Bytes> {
    if edits == [] then []
    else
      match edits[0]
      case Kept(line) => [line] + Upstream(edits[1..])
      case Lost => [[]] + Upstream(edits[1..])
      case Added => Upstream(edits[1..])
      case Last(rest) => [DONE] + ThroughBlank(rest)
  }

  /** The lines of the output. */
  function Client(edits: seq<Edit>): seq<Bytes> {
    if edits == [] then []
    else
      match edits[0]
      case Kept(line) => [line] + Client(edits[1..])
      case Lost => Client(edits[1..])
      case Added => [[]] + Client(edits[1..])
      case Last(_) => [DONE, []]
  }

  function AllKept(lines: seq<Bytes>): seq<Edit> {
    if lines == [] then [] else [Kept(lines[0])] + AllKept(lines[1..])
  }

  /** What a client takes a scanned line for when it is written with a line feed. */
  function Pieces(line: Bytes): seq<Bytes> {
    SplitLines(line + [LF])
  }

  /** One scanned line, not the end marker. The scanner drops one carriage return, the client's splitting
      takes one into the break; a line that still ends in one has lost the blank line between the two. */
  function LineEdits(line: Bytes): seq<Edit> {
    AllKept(Pieces(line)) + (if EndsInCR(line) then [Lost] else []) + if IsData(line) then [Added] else []
  }

  function FirstScanned(b: Bytes): Bytes
    requires b != []
  {
    DropCR(b[..Find(b, {LF})])
  }

  function Behind(b: Bytes): (rest: Bytes)
    requires b != []
    ensures |rest| < |b| && rest == b[|b| - |rest|..]
  {
    var i := Find(b, {LF});
    if i < |b| then b[i + 1..] else b[|b|..]
  }

  function EditsByLine(b: Bytes): seq<Edit>
    decreases |b|
  {
    if b == [] then []
    else if FirstScanned(b) == DONE then [Last(SplitLines(Behind(b)))]
    else LineEdits(FirstScanned(b)) + EditsByLine(Behind(b))
  }

  function WithoutBom(edits: seq<Edit>): seq<Edit> {
    if edits != [] && edits[0].Kept? && BOM <= edits[0].line
    then [Kept(edits[0].line[3..])] + edits[1..] else edits
  }

  /** The two streams that belong to the upstream bytes `b`; a byte order mark belongs to no line. */
  function Edits(b: Bytes): seq<Edit> {
    WithoutBom(EditsByLine(b))
  }

  lemma {:induction false} KeptView(line: Bytes, more: seq<Edit>)
    ensures Upstream([Kept(line)] + more) == [line] + Upstream(more)
    ensures Client([Kept(line)] + more) == [line] + Client(more)
  {
    assert ([Kept(line)] + more)[1..] == more;
  }

  lemma {:induction false} KeptViews(lines: seq<Bytes>, more: seq<Edit>)
    ensures Upstream(AllKept(lines) + more) == lines + Upstream(more)
    ensures Client(AllKept(lines) + more) == lines + Client(more)
    decreases |lines|
  {
    if lines == [] {
      assert AllKept(lines) + more == more;
    } else {
      var behind := AllKept(lines[1..]) + more;
      KeptViews(lines[1..], more);
      assert AllKept(lines) + more == [Kept(lines[0])] + behind;
      hide AllKept;
      KeptView(lines[0], behind);
      Grouped([lines[0]], lines[1..], Upstream(more));
      Grouped([lines[0]], lines[1..], Client(more));
      assert [lines[0]] + lines[1..] == lines;
    }
  }

  lemma {:induction false} BlankViews(more: seq<Edit>)
    ensures Upstream([Lost] + more) == [[]] + Upstream(more) && Client([Lost] + more) == Client(more)
    ensures Upstream([Added] + more) == Upstream(more) && Client([Added] + more) == [[]] + Client(more)
  {
    assert ([Lost] + more)[1..] == more && ([Added] + more)[1..] == more;
  }

  lemma LineEditsThen(line: Bytes, more: seq<Edit>) returns (behind: seq<Edit>)
    ensures LineEdits(line) + more == AllKept(Pieces(line)) + behind
    ensures behind == (if EndsInCR(line) then [Lost] else []) + ((if IsData(line) then [Added] else []) + more)
  {
    behind := (if EndsInCR(line) then [Lost] else []) + ((if IsData(line) then [Added] else []) + more);
  }

  lemma {:induction false} LineViews(line: Bytes, more: seq<Edit>)
    ensures Upstream(LineEdits(line) + more)
            == Pieces(line) + (if EndsInCR(line) then [[]] else []) + Upstream(more)
    ensures Client(LineEdits(line) + more) == Pieces(line) + (if IsData(line) then [[]] else []) + Client(more)
  {
    hide Upstream, Client, Pieces, AllKept, IsData, EndsInCR;
    var behind := LineEditsThen(line, more);
    hide LineEdits;
    KeptViews(Pieces(line), behind);
    var added := (if IsData(line) then [Added] else []) + more;
    BlankViews(more);
    BlankViews(added);
    assert [] + more == more && [] + added == added;
  }

  // ---------------------------------------------------------------------------
  // The output splits into the lines of the client

  lemma {:induction false} RewriteSplits(line: Bytes, rest: Bytes)
    ensures SplitLines(Rewrite(line) + rest)
            == Pieces(line) + (if IsData(line) then [[]] else []) + SplitLines(rest)
  {
    hide SplitLines;
    if IsData(line) {
      SplitAtLF([], rest);
      assert [] + [LF] + rest == [LF] + rest;
      SplitConcat(line + [LF], [LF] + rest);
      assert Rewrite(line) + rest == (line + [LF]) + ([LF] + rest);
      Grouped(Pieces(line), [[]], SplitLines(rest));
    } else {
      SplitConcat(line + [LF], rest);
      assert Pieces(line) + [] == Pieces(line);
    }
  }

  lemma {:induction false} ScanNext(b: Bytes)
    requires b != []
    ensures ScanLines(b) == [FirstScanned(b)] + ScanLines(Behind(b))
  {
    assert ScanLines([]) == [];
  }

  lemma DoneIsClean()
    ensures Clean(DONE) && IsData(DONE) && !EndsInCR(DONE) && Pieces(DONE) == [DONE]
  {
    SplitAtLF(DONE, []);
    SplitNothing([]);
    assert DONE + [LF] + [] == DONE + [LF];
  }

  lemma {:induction false} OutputByLine(b: Bytes)
    requires b != []
    ensures Output(ScanLines(b))
            == Rewrite(FirstScanned(b)) + if FirstScanned(b) == DONE then [] else Output(ScanLines(Behind(b)))
  {
    ScanNext(b);
  }

  /** A client splits the written bytes into exactly the lines that were meant, whatever the upstream. */
  lemma {:induction false} OutputSplits(b: Bytes)
    ensures SplitLines(Output(ScanLines(b))) == Client(EditsByLine(b))
    decreases |b|
  {
    if b == [] {
      SplitNothing([]);
    } else {
      var line := FirstScanned(b);
      OutputByLine(b);
      if line == DONE {
        DoneIsClean();
        SplitNothing([]);
        RewriteSplits(DONE, []);
      } else {
        hide SplitLines, Output, ScanLines, Client, LineEdits, Pieces, Rewrite, FirstScanned, Behind, IsData;
        OutputSplits(Behind(b));
        RewriteSplits(line, Output(ScanLines(Behind(b))));
        LineViews(line, EditsByLine(Behind(b)));
      }
    }
  }

  // ---------------------------------------------------------------------------
  // The upstream splits into its own lines

  /** The number of bytes through the first end marker, as the scanner finds it. */
  function DoneEnd(b: Bytes): (k: nat)
    ensures k <= |b|
    decreases |b|
  {
    if b == [] then 0
    else |b| - |Behind(b)| + if FirstScanned(b) == DONE then 0 else DoneEnd(Behind(b))
  }

  /** The upstream lines through the end of the event with the first end marker. */
  function ThroughDone(b: Bytes): seq<Bytes> {
    SplitLines(b[..DoneEnd(b)]) + ThroughBlank(SplitLines(b[DoneEnd(b)..]))
  }

  lemma {:induction false} HeadPieces(raw: Bytes)
    requires LF !in raw
    ensures SplitLines(raw + [LF])
            == Pieces(DropCR(raw)) + if EndsInCR(DropCR(raw)) then [[]] else []
  {
    hide SplitLines;
    if EndsInCR(raw) {
      var line := raw[..|raw| - 1];
      SecondReturn(line);
      assert raw + [LF] == line + [CR, LF];
    }
  }

  lemma FirstTerminated(b: Bytes) returns (raw: Bytes)
    requires LF in b
    ensures LF !in raw && b == raw + [LF] + Behind(b) && FirstScanned(b) == DropCR(raw)
  {
    var i := Find(b, {LF});
    assert i < |b|;
    raw := b[..i];
    forall x | x in raw
      ensures x != LF
    {
      var k :| 0 <= k < i && b[k] == x;
    }
  }

  lemma LastUnterminated(b: Bytes)
    requires LF !in b && b != []
    ensures Behind(b) == [] && FirstScanned(b) == DropCR(b)
  {
    assert Find(b, {LF}) == |b|;
    assert b[..|b|] == b;
  }

  lemma {:induction false} ThroughDoneNext(raw: Bytes, rest: Bytes, k: nat)
    requires k <= |rest|
    ensures var b, i := raw + [LF] + rest, |raw| + 1 + k;
            SplitLines(b[..i]) + ThroughBlank(SplitLines(b[i..]))
            == SplitLines(raw + [LF]) + (SplitLines(rest[..k]) + ThroughBlank(SplitLines(rest[k..])))
  {
    hide SplitLines, ThroughBlank;
    var b, i := raw + [LF] + rest, |raw| + 1 + k;
    SplitConcat(raw + [LF], rest[..k]);
    assert b[..i] == raw + [LF] + rest[..k] && b[i..] == rest[k..];
    Grouped(SplitLines(raw + [LF]), SplitLines(rest[..k]), ThroughBlank(SplitLines(rest[k..])));
  }

  lemma {:induction false} EditsNext(b: Bytes)
    requires b != []
    ensures Upstream(EditsByLine(b))
            == Pieces(FirstScanned(b)) + (if EndsInCR(FirstScanned(b)) then [[]] else [])
               + if FirstScanned(b) == DONE then ThroughBlank(SplitLines(Behind(b)))
                 else Upstream(EditsByLine(Behind(b)))
  {
    hide SplitLines, ThroughBlank, FirstScanned, Behind, Pieces, EndsInCR, LineEdits;
    if FirstScanned(b) == DONE {
      DoneIsClean();
      assert [DONE] + [] == [DONE];
    } else {
      LineViews(FirstScanned(b), EditsByLine(Behind(b)));
    }
  }

  /** The upstream has the lines of the edits, but for an unterminated last one. */
  lemma {:induction false} UpstreamSplits(b: Bytes) returns (tail: seq<Bytes>)
    ensures Upstream(EditsByLine(b)) == ThroughDone(b) + tail
    ensures |tail| <= 1 && [] !in tail
    decreases |b|
  {
    if b == [] {
      SplitNothing([]);
      tail := [];
    } else {
      EditsNext(b);
      if LF in b {
        tail := TerminatedSplits(b);
      } else {
        LastUnterminated(b);
        HeadPieces(b);
        tail := Unterminated(b);
        NothingBehind(b);
        assert Upstream(EditsByLine([])) == [] && SplitLines(Behind(b)) == [] by { SplitNothing([]); }
      }
    }
  }

  lemma {:induction false} NothingBehind(b: Bytes)
    requires b != [] && Behind(b) == []
    ensures ThroughDone(b) == SplitLines(b)
  {
    assert DoneEnd(b) == |b|;
    assert b[..|b|] == b && b[|b|..] == [];
    SplitNothing([]);
    hide SplitLines;
    assert SplitLines(b) + [] == SplitLines(b);
  }

  lemma {:induction false} DoneEndBehind(b: Bytes, raw: Bytes)
    requires b != [] && b == raw + [LF] + Behind(b)
    ensures DoneEnd(b) == |raw| + 1 + if FirstScanned(b) == DONE then 0 else DoneEnd(Behind(b))
  {
    hide FirstScanned, Behind;
    assert |b| == |raw| + 1 + |Behind(b)|;
  }

  lemma {:induction false} ThroughDoneBehind(b: Bytes, raw: Bytes)
    requires b != [] && b == raw + [LF] + Behind(b)
    ensures ThroughDone(b)
            == SplitLines(raw + [LF]) + if FirstScanned(b) == DONE then ThroughBlank(SplitLines(Behind(b)))
                                        else ThroughDone(Behind(b))
  {
    hide SplitLines, ThroughBlank, FirstScanned, Behind, DoneEnd;
    var rest := Behind(b);
    var k := if FirstScanned(b) == DONE then 0 else DoneEnd(rest);
    DoneEndBehind(b, raw);
    ThroughDoneNext(raw, rest, k);
    if k == 0 {
      SplitNothing([]);
      assert rest[..0] == [] && rest[0..] == rest;
      assert [] + ThroughBlank(SplitLines(rest)) == ThroughBlank(SplitLines(rest));
    }
  }

  lemma {:induction false} TerminatedSplits(b: Bytes) returns (tail: seq<Bytes>)
    requires LF in b
    ensures Upstream(EditsByLine(b)) == ThroughDone(b) + tail
    ensures |tail| <= 1 && [] !in tail
    decreases |b|, 0
  {
    var raw := FirstTerminated(b);
    var rest := Behind(b);
    hide SplitLines, ThroughBlank, FirstScanned, Behind, Pieces, EndsInCR, EditsByLine, ThroughDone, Upstream, DropCR;
    EditsNext(b);
    HeadPieces(raw);
    ThroughDoneBehind(b, raw);
    if FirstScanned(b) == DONE {
      tail := [];
      assert ThroughDone(b) + [] == ThroughDone(b);
    } else {
      tail := UpstreamSplits(rest);
      Grouped(SplitLines(raw + [LF]), ThroughDone(rest), tail);
    }
  }
}
