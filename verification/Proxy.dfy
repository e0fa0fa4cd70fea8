// One proxied stream as a protocol: the goroutine that reads upstream, the pipe, the goroutine that
// copies to the client, and the caller that waits for the copy or for cancellation.
module Proxy {
  import opened Common
  import opened Sse
  import opened Metering

  datatype Error = Eof | Cancelled | ClosedPipe | ReadFailed | ClientGone

  /** The upstream body as the scanner finds it: still delivering, at its end, or broken off after the
      first `cut` bytes. */
  datatype Body = Delivering | Ended | BrokenAt(cut: nat)

  /** The reader: between lines; in a pipe write with bytes left; about to tell the connection manager
      that it is alive; about to close its end of the pipe; done. */
  datatype ReaderAt =
    | Scanning
    | Writing(rest: Bytes, line: Bytes)
    | Touching
    | Closing(err: Option<Error>)
    | Finished(err: Option<Error>)

  /** The copier: waiting on the pipe, writing to the client, or done with its verdict in the channel. */
  datatype CopierAt = Reading | Sending(chunk: Bytes) | Reported(err: Option<Error>)

  /** The caller: in its select; in the four steps of the cancellation branch; in the two of the other;
      returned. */
  datatype CallerAt =
    | Selecting
    | ClosingWriter | ClosingReader | ClosingBody | Draining
    | CopyDone(err: Option<Error>) | BodyDone(err: Option<Error>)
    | Returned(result: Counts, err: Option<Error>)

  datatype Stream = Stream(
    session: string,
    decode: Decoder,
    upstream: Bytes,
    pos: nat,                // upstream bytes behind the scanned lines
    body: Body,
    closes: nat,             // how often the body has been closed
    scanned: seq<Bytes>,     // the lines taken so far
    counts: Counts,
    reader: ReaderAt,
    werr: Option<Error>,     // what closed the pipe's write end, and its read end
    rerr: Option<Error>,
    taken: Bytes,            // what the copier has taken out of the pipe
    copier: CopierAt,
    delivered: Bytes,        // what the client has been given
    cancelled: bool,
    caller: CallerAt)

  function Fresh(session: string, decode: Decoder, upstream: Bytes): Stream {
    Stream(session, decode, upstream, 0, Delivering, 0, [], Counts(0, 0), Scanning,
           None, None, [], Reading, [], false, Selecting)
  }

  /** Steps that touch nothing but the stream. `n` and `k` are sizes the environment chooses. */
  datatype Action =
    | Cancel
    | BodyEnds | BodyBreaks(cut: nat)
    | ScanLine | ScanStops | SeesCancel
    | Transfer(n: nat) | WriteFails
    | ReaderCloses
    | PipeCloses
    | Send | SendFails(k: nat)
    | PicksCancel | PicksCopy | CloseWriter | CloseReader | Drain | CloseReaderLast

  predicate PipeDone(s: Stream) {
    s.werr.Some? || s.rerr.Some?
  }

  /** The bytes of the body that the scanner has or will have. */
  function Received(s: Stream): Bytes {
    match s.body
    case Delivering => if s.pos <= |s.upstream| then s.upstream[..s.pos] else []
    case Ended => s.upstream
    case BrokenAt(cut) => if cut <= |s.upstream| then s.upstream[..cut] else []
  }

  /** What the scanner can still tokenize: up to the next line break while the body delivers. */
  function Left(s: Stream): Bytes {
    var from := if s.body.Delivering? then s.upstream else Received(s);
    if s.pos <= |from| then from[s.pos..] else []
  }

  predicate HasLine(s: Stream) {
    if s.body.Delivering? then Find(Left(s), {LF}) < |Left(s)| else Left(s) != []
  }

  function NextLine(s: Stream): Bytes {
    DropCR(Left(s)[..Find(Left(s), {LF})])
  }

  function NextPos(s: Stream): nat {
    var i := Find(Left(s), {LF});
    s.pos + i + if i < |Left(s)| then 1 else 0
  }

  predicate Enabled(s: Stream, a: Action) {
    match a
    case Cancel => true
    case BodyEnds => s.body.Delivering? && s.closes == 0
    case BodyBreaks(cut) => s.body.Delivering? && s.pos <= cut <= |s.upstream|
    case ScanLine => s.reader.Scanning? && HasLine(s) && !s.cancelled
    case SeesCancel => s.reader.Scanning? && HasLine(s) && s.cancelled
    case ScanStops => s.reader.Scanning? && !s.body.Delivering? && !HasLine(s)
    case Transfer(n) => s.reader.Writing? && s.copier.Reading? && 0 < n <= |s.reader.rest| && n <= 4096
    case WriteFails => s.reader.Writing? && PipeDone(s)
    case ReaderCloses => s.reader.Closing?
    case PipeCloses => s.copier.Reading? && PipeDone(s)
    case Send => s.copier.Sending?
    case SendFails(k) => s.copier.Sending? && k <= |s.copier.chunk|
    case PicksCancel => s.caller.Selecting? && s.cancelled
    case PicksCopy => s.caller.Selecting? && s.copier.Reported?
    case CloseWriter => s.caller.ClosingWriter?
    case CloseReader => s.caller.ClosingReader?
    case Drain => s.caller.Draining? && s.copier.Reported?
    case CloseReaderLast => s.caller.BodyDone?
  }

  /** The first error of an end stays. */
  function First(before: Option<Error>, e: Error): Option<Error> {
    if before.Some? then before else Some(e)
  }

  /** After a write that the copier has taken whole. */
  function AfterWrite(line: Bytes): ReaderAt {
    if line == DONE then Closing(None) else if IsData(line) then Touching else Scanning
  }

  function Do(s: Stream, a: Action): Stream
    requires Enabled(s, a)
  {
    match a
    case Cancel => s.(cancelled := true)
    case BodyEnds => s.(body := Ended)
    case BodyBreaks(cut) => s.(body := BrokenAt(cut))
    case ScanLine =>
      var line := NextLine(s);
      s.(pos := NextPos(s), scanned := s.scanned + [line], counts := MeterLine(s.decode, s.counts, line),
         reader := Writing(Rewrite(line), line))
    case SeesCancel => s.(reader := Closing(Some(Cancelled)))
    case ScanStops => s.(reader := Closing(if s.body.Ended? then None else Some(ReadFailed)))
    case Transfer(n) =>
      var Writing(rest, line) := s.reader;
      s.(taken := s.taken + rest[..n], copier := Sending(rest[..n]),
         reader := if n == |rest| then AfterWrite(line) else Writing(rest[n..], line))
    case WriteFails =>
      s.(reader := Closing(Some(if s.werr.None? then s.rerr.value else ClosedPipe)))
    case ReaderCloses =>
      var e := s.reader.err;
      s.(werr := First(s.werr, if e.None? then Eof else e.value), reader := Finished(e))
    case PipeCloses =>
      var e := if s.rerr.None? then s.werr.value else ClosedPipe;
      s.(copier := Reported(if e == Eof then None else Some(e)))
    case Send => s.(delivered := s.delivered + s.copier.chunk, copier := Reading)
    case SendFails(k) => s.(delivered := s.delivered + s.copier.chunk[..k], copier := Reported(Some(ClientGone)))
    case PicksCancel => s.(caller := ClosingWriter)
    case PicksCopy => s.(caller := CopyDone(s.copier.err))
    case CloseWriter => s.(werr := First(s.werr, Cancelled), caller := ClosingReader)
    case CloseReader => s.(rerr := First(s.rerr, Cancelled), caller := ClosingBody)
    case Drain => s.(caller := Returned(s.counts, Some(Cancelled)))
    case CloseReaderLast => s.(rerr := First(s.rerr, Eof), caller := Returned(s.counts, s.caller.err))
  }

  // ---------------------------------------------------------------------------
  // Scanning in pieces

  ghost predicate AtLineStart(b: Bytes, p: nat) {
    p <= |b| && (p == 0 || b[p - 1] == LF)
  }

  lemma {:induction false} ScanFirst(b: Bytes, i: nat)
    requires i < |b| && b[i] == LF && (forall j :: 0 <= j < i ==> b[j] != LF)
    ensures ScanLines(b) == [DropCR(b[..i])] + ScanLines(b[i + 1..])
  {
    FindUnique(b, {LF}, i);
  }

  lemma ScanNothing()
    ensures ScanLines([]) == []
  {
  }

  lemma ScanNext(left: Bytes, i: nat)
    requires left != [] && i == Find(left, {LF})
    ensures ScanLines(left) == [DropCR(left[..i])] + ScanLines(if i < |left| then left[i + 1..] else [])
  {
    ScanNothing();
    if i < |left| {
      ScanFirst(left, i);
    }
  }

  lemma {:induction false} ScanConcat(x: Bytes, y: Bytes)
    requires x == [] || x[|x| - 1] == LF
    ensures ScanLines(x + y) == ScanLines(x) + ScanLines(y)
    decreases |x|
  {
    hide ScanLines;
    if x == [] {
      ScanNothing();
      assert x + y == y;
    } else {
      var i := Find(x, {LF});
      assert x[|x| - 1] in {LF};
      assert x[i] in {LF} && (forall j :: 0 <= j < i ==> x[j] !in {LF});
      hide Find;
      ScanFirst(x, i);
      ScanFirst(x + y, i);
      var rest := x[i + 1..];
      ScanConcat(rest, y);
      assert (x + y)[..i] == x[..i];
      assert (x + y)[i + 1..] == rest + y;
    }
  }

  lemma {:induction false} ScanInPieces(b: Bytes, p: nat)
    requires AtLineStart(b, p)
    ensures ScanLines(b) == ScanLines(b[..p]) + ScanLines(b[p..])
  {
    hide ScanLines;
    ScanConcat(b[..p], b[p..]);
    assert b[..p] + b[p..] == b;
  }

  // ---------------------------------------------------------------------------
  // Output and counts, line by line

  lemma {:induction false} OutputSnoc(lines: seq<Bytes>, line: Bytes)
    requires DONE !in lines
    ensures Output(lines + [line]) == Output(lines) + Rewrite(line)
    ensures Handled(lines) == lines && Handled(lines + [line]) == lines + [line]
  {
    if lines == [] {
      assert [line][1..] == [];
      assert lines + [line] == [line];
    } else {
      assert (lines + [line])[1..] == lines[1..] + [line];
      OutputSnoc(lines[1..], line);
    }
  }

  /** What follows the first DONE makes no difference. */
  lemma {:induction false} DoneEndsOutput(lines: seq<Bytes>, more: seq<Bytes>)
    requires DONE in lines
    ensures Output(lines + more) == Output(lines) && Handled(lines + more) == Handled(lines)
  {
    assert (lines + more)[1..] == lines[1..] + more;
    if lines[0] != DONE {
      DoneEndsOutput(lines[1..], more);
    }
  }

  lemma {:induction false} OutputGrows(lines: seq<Bytes>, more: seq<Bytes>)
    ensures Output(lines) <= Output(lines + more)
  {
    if lines != [] {
      assert (lines + more)[1..] == lines[1..] + more;
      OutputGrows(lines[1..], more);
    }
  }

  // ---------------------------------------------------------------------------
  // A body that breaks

  /** Where the line that `cut` falls into begins. */
  function LineStart(b: Bytes, cut: nat): (p: nat)
    requires cut <= |b|
    ensures p <= cut && AtLineStart(b, p)
    ensures forall j :: p <= j < cut ==> b[j] != LF
  {
    if cut == 0 || b[cut - 1] == LF then cut else LineStart(b, cut - 1)
  }

  function FirstOf(b: Bytes): Bytes {
    DropCR(b[..Find(b, {LF})])
  }

  /** The cut falls between lines, or behind the end marker, or leaves its line whole. */
  predicate CleanCut(b: Bytes, cut: nat)
    requires cut <= |b|
  {
    var p := LineStart(b, cut);
    p == cut || DONE in ScanLines(b[..p]) || DropCR(b[p..cut]) == FirstOf(b[p..])
  }

  /** `head` ends with a line and the first `c` bytes of `tail` do not. */
  ghost predicate Cuts(head: Bytes, tail: Bytes, c: nat) {
    (head == [] || head[|head| - 1] == LF) && 0 < c <= |tail| && forall j :: 0 <= j < c ==> tail[j] != LF
  }

  lemma {:induction false} Unbroken(piece: Bytes)
    requires piece != [] && LF !in piece
    ensures ScanLines(piece) == [DropCR(piece)]
  {
    FindUnique(piece, {LF}, |piece|);
    assert piece[..|piece|] == piece;
  }

  lemma FirstAndRest(tail: Bytes) returns (more: seq<Bytes>)
    requires tail != []
    ensures ScanLines(tail) == [FirstOf(tail)] + more
  {
    var i := Find(tail, {LF});
    ScanNext(tail, i);
    more := ScanLines(if i < |tail| then tail[i + 1..] else []);
  }

  lemma CutLines(head: Bytes, tail: Bytes, c: nat) returns (more: seq<Bytes>)
    requires Cuts(head, tail, c)
    ensures ScanLines(head + tail[..c]) == ScanLines(head) + [DropCR(tail[..c])]
    ensures ScanLines(head + tail) == ScanLines(head) + [FirstOf(tail)] + more
  {
    assert LF !in tail[..c];
    hide ScanLines, DropCR, FirstOf, Cuts;
    LinesBefore(head, tail[..c]);
    more := LinesThrough(head, tail);
  }

  lemma {:induction false} LinesBefore(head: Bytes, piece: Bytes)
    requires head == [] || head[|head| - 1] == LF
    requires piece != [] && LF !in piece
    ensures ScanLines(head + piece) == ScanLines(head) + [DropCR(piece)]
  {
    hide ScanLines, DropCR;
    Unbroken(piece);
    ScanConcat(head, piece);
  }

  lemma LinesThrough(head: Bytes, tail: Bytes) returns (more: seq<Bytes>)
    requires head == [] || head[|head| - 1] == LF
    requires tail != []
    ensures ScanLines(head + tail) == ScanLines(head) + [FirstOf(tail)] + more
  {
    hide ScanLines, FirstOf;
    ScanConcat(head, tail);
    more := FirstAndRest(tail);
    assert ScanLines(head) + ([FirstOf(tail)] + more) == ScanLines(head) + [FirstOf(tail)] + more;
  }

  lemma CutLineIsPrefix(tail: Bytes, c: nat)
    requires c <= |tail| && forall j :: 0 <= j < c ==> tail[j] != LF
    ensures DropCR(tail[..c]) <= FirstOf(tail) && LF !in FirstOf(tail)
  {
    var i := Find(tail, {LF});
    assert c <= i;
    assert tail[..c] == tail[..i][..c];
    assert LF !in tail[..i];
  }

  lemma RewritePrefixIff(short: Bytes, line: Bytes, rest: Bytes)
    requires short <= line && LF !in line
    ensures Rewrite(short) <= Rewrite(line) + rest <==> short == line
  {
    if |short| < |line| {
      assert Rewrite(short)[|short|] == LF;
      assert (Rewrite(line) + rest)[|short|] == line[|short|] && line[|short|] in line;
    }
  }

  lemma PrefixCancels(a: Bytes, x: Bytes, y: Bytes)
    ensures a + x <= a + y <==> x <= y
  {
    assert (a + y)[..|a|] == a && (a + y)[|a|..] == y && (a + x)[|a|..] == x;
    if a + x <= a + y {
      assert forall j :: 0 <= j < |x| ==> x[j] == (a + x)[|a| + j] == (a + y)[|a| + j] == y[j];
    }
  }

  lemma {:induction false} OutputSplitsAt(lines: seq<Bytes>, line: Bytes, more: seq<Bytes>) returns (rest: Bytes)
    requires DONE !in lines
    ensures Output(lines + [line] + more) == Output(lines) + (Rewrite(line) + rest)
  {
    hide Output, Rewrite;
    OutputSnoc(lines, line);
    OutputGrows(lines + [line], more);
    rest := Output(lines + [line] + more)[|Output(lines + [line])|..];
  }

  lemma {:induction false} DoneDecides(lines: seq<Bytes>, short: Bytes, line: Bytes, more: seq<Bytes>)
    requires DONE in lines
    ensures Output(lines + [short]) == Output(lines + [line] + more)
    ensures Handled(lines + [short]) == Handled(lines + [line] + more)
  {
    hide Output, Handled;
    DoneEndsOutput(lines, [short]);
    DoneEndsOutput(lines, [line] + more);
    assert lines + [line] + more == lines + ([line] + more);
  }

  lemma {:induction false} CutPrefixIff(head: Bytes, tail: Bytes, c: nat)
    requires Cuts(head, tail, c)
    ensures Output(ScanLines(head + tail[..c])) <= Output(ScanLines(head + tail))
            <==> DONE in ScanLines(head) || DropCR(tail[..c]) == FirstOf(tail)
  {
    CutLineIsPrefix(tail, c);
    var more := CutLines(head, tail, c);
    hide ScanLines, FirstOf, DropCR, Output, Rewrite, Cuts;
    var lines, short, line := ScanLines(head), DropCR(tail[..c]), FirstOf(tail);
    if DONE in lines {
      DoneDecides(lines, short, line, more);
    } else {
      var rest := OutputSplitsAt(lines, line, more);
      OutputSnoc(lines, short);
      PrefixCancels(Output(lines), Rewrite(short), Rewrite(line) + rest);
      RewritePrefixIff(short, line, rest);
    }
  }

  lemma {:induction false} CutHasAll(head: Bytes, tail: Bytes, c: nat)
    requires Cuts(head, tail, c) && DONE in ScanLines(head + tail[..c])
    requires DONE in ScanLines(head) || DropCR(tail[..c]) == FirstOf(tail)
    ensures Output(ScanLines(head + tail[..c])) == Output(ScanLines(head + tail))
    ensures Handled(ScanLines(head + tail[..c])) == Handled(ScanLines(head + tail))
  {
    var more := CutLines(head, tail, c);
    hide ScanLines, FirstOf, DropCR, Output, Rewrite, Handled, Cuts;
    var lines, short, line := ScanLines(head), DropCR(tail[..c]), FirstOf(tail);
    if DONE in lines {
      DoneDecides(lines, short, line, more);
    } else {
      DoneEndsOutput(lines + [line], more);
    }
  }

  lemma CutIsCut(b: Bytes, cut: nat)
    requires cut <= |b|
    ensures var p := LineStart(b, cut);
            && b == b[..p] + b[p..] && b[..cut] == b[..p] + b[p..][..cut - p] && b[p..][..cut - p] == b[p..cut]
            && (p < cut ==> Cuts(b[..p], b[p..], cut - p))
  {
    var p := LineStart(b, cut);
    forall j | 0 <= j < cut - p
      ensures b[p..][j] != LF
    {
      assert b[p..][j] == b[p + j];
    }
  }

  lemma {:induction false} CleanCutIs(b: Bytes, cut: nat)
    requires cut <= |b|
    ensures var p := LineStart(b, cut);
            && (p == cut ==> CleanCut(b, cut))
            && (p < cut ==>
                 (CleanCut(b, cut) <==> DONE in ScanLines(b[..p]) || DropCR(b[p..][..cut - p]) == FirstOf(b[p..])))
  {
    hide LineStart, ScanLines, DropCR, FirstOf;
    var p := LineStart(b, cut);
    assert b[p..][..cut - p] == b[p..cut];
  }

  /** What a body that breaks has the proxy write is a prefix of the output for the whole upstream if and
      only if it breaks cleanly. */
  lemma {:induction false} PrefixIffCleanCut(b: Bytes, cut: nat)
    requires cut <= |b|
    ensures Output(ScanLines(b[..cut])) <= Output(ScanLines(b)) <==> CleanCut(b, cut)
  {
    hide LineStart, ScanLines, Output, DropCR, FirstOf, Cuts, CleanCut;
    var p := LineStart(b, cut);
    CutIsCut(b, cut);
    CleanCutIs(b, cut);
    if p == cut {
      ScanInPieces(b, p);
      OutputGrows(ScanLines(b[..p]), ScanLines(b[p..]));
    } else {
      CutPrefixIff(b[..p], b[p..], cut - p);
    }
  }

  /** A clean cut behind the end marker loses nothing. */
  lemma {:induction false} CleanCutHasAll(b: Bytes, cut: nat)
    requires cut <= |b| && CleanCut(b, cut) && DONE in ScanLines(b[..cut])
    ensures Output(ScanLines(b[..cut])) == Output(ScanLines(b))
    ensures Handled(ScanLines(b[..cut])) == Handled(ScanLines(b))
  {
    hide LineStart, ScanLines, Output, Handled, DropCR, FirstOf, Cuts, CleanCut;
    var p := LineStart(b, cut);
    CutIsCut(b, cut);
    if p == cut {
      ScanInPieces(b, p);
      DoneEndsOutput(ScanLines(b[..p]), ScanLines(b[p..]));
    } else {
      CleanCutIs(b, cut);
      CutHasAll(b[..p], b[p..], cut - p);
    }
  }

  // ---------------------------------------------------------------------------
  // Invariants of every run

  /** The scanned lines and those still to come make up the received bytes. */
  ghost predicate ScansInOrder(s: Stream) {
    if s.body.Delivering?
    then AtLineStart(s.upstream, s.pos) && s.scanned == ScanLines(s.upstream[..s.pos])
    else
      && (s.body.BrokenAt? ==> s.body.cut <= |s.upstream|)
      && s.pos <= |Received(s)|
      && s.scanned + ScanLines(Received(s)[s.pos..]) == ScanLines(Received(s))
  }

  lemma BodyStopsInOrder(s: Stream, body: Body)
    requires ScansInOrder(s) && s.body.Delivering? && !body.Delivering?
    requires body.BrokenAt? ==> s.pos <= body.cut <= |s.upstream|
    ensures ScansInOrder(s.(body := body))
  {
    var r := Received(s.(body := body));
    ScanInPieces(r, s.pos);
    assert r[..s.pos] == s.upstream[..s.pos];
  }

  lemma LineConsumed(b: Bytes, p: nat, i: nat)
    requires AtLineStart(b, p) && p + i < |b| && b[p + i] == LF
    requires forall j :: p <= j < p + i ==> b[j] != LF
    ensures AtLineStart(b, p + i + 1)
    ensures ScanLines(b[..p + i + 1]) == ScanLines(b[..p]) + [DropCR(b[p..p + i])]
  {
    hide ScanLines, DropCR;
    var upto, piece := b[..p + i + 1], b[p..p + i + 1];
    ScanInPieces(upto, p);
    assert upto[..p] == b[..p] && upto[p..] == piece;
    forall j | 0 <= j < i
      ensures piece[j] != LF
    {
      assert piece[j] == b[p + j];
    }
    assert piece[i] == b[p + i];
    ScanFirst(piece, i);
    ScanNothing();
    assert piece[..i] == b[p..p + i] && piece[i + 1..] == [];
  }

  lemma LineInPlace(b: Bytes, pos: nat, i: nat)
    requires AtLineStart(b, pos) && i < |b| - pos && i == Find(b[pos..], {LF})
    ensures AtLineStart(b, pos + i + 1)
    ensures ScanLines(b[..pos + i + 1]) == ScanLines(b[..pos]) + [DropCR(b[pos..][..i])]
  {
    hide ScanLines, DropCR, Find;
    FoundInPlace(b, pos);
    LineConsumed(b, pos, i);
    SamePiece(b, pos, i);
  }

  lemma SamePiece(b: Bytes, pos: nat, i: nat)
    requires pos <= |b| && i <= |b| - pos
    ensures b[pos..][..i] == b[pos..pos + i]
  {
  }

  lemma FoundInPlace(b: Bytes, pos: nat)
    requires pos <= |b| && Find(b[pos..], {LF}) < |b| - pos
    ensures var i := Find(b[pos..], {LF});
            b[pos + i] == LF && forall j :: pos <= j < pos + i ==> b[j] != LF
  {
    var left := b[pos..];
    var i := Find(left, {LF});
    assert left[i] == b[pos + i];
    forall j | pos <= j < pos + i
      ensures b[j] != LF
    {
      assert left[j - pos] == b[j] && left[j - pos] !in {LF};
    }
  }

  lemma ScanLineWhileDelivering(s: Stream)
    requires ScansInOrder(s) && Enabled(s, ScanLine) && s.body.Delivering?
    ensures ScansInOrder(Do(s, ScanLine))
  {
    hide ScanLines, Find, DropCR, MeterLine, Rewrite;
    LineInPlace(s.upstream, s.pos, Find(s.upstream[s.pos..], {LF}));
  }

  lemma RestOfLeft(r: Bytes, pos: nat, i: nat)
    requires pos < |r| && i <= |r| - pos
    ensures var next := pos + i + if i < |r| - pos then 1 else 0;
            next <= |r| && r[next..] == if i < |r| - pos then r[pos..][i + 1..] else []
  {
  }

  /** Taking the first line off what is left. */
  lemma LineTakenOff(left: Bytes, i: nat, scanned: seq<Bytes>)
    requires left != [] && i == Find(left, {LF})
    ensures var rest := if i < |left| then left[i + 1..] else [];
            scanned + [DropCR(left[..i])] + ScanLines(rest) == scanned + ScanLines(left)
  {
    hide ScanLines, Find, DropCR;
    ScanNext(left, i);
    Regrouped(scanned, [DropCR(left[..i])], ScanLines(if i < |left| then left[i + 1..] else []));
  }

  lemma Regrouped<T>(a: seq<T>, b: seq<T>, c: seq<T>)
    ensures a + (b + c) == a + b + c
  {
  }

  lemma ScanLineAfterBody(s: Stream)
    requires ScansInOrder(s) && Enabled(s, ScanLine) && !s.body.Delivering?
    ensures ScansInOrder(Do(s, ScanLine))
  {
    hide ScanLines, Find, DropCR, MeterLine, Rewrite;
    var left := Left(s);
    RestOfLeft(Received(s), s.pos, Find(left, {LF}));
    LineTakenOff(left, Find(left, {LF}), s.scanned);
  }

  lemma ScanLineInOrder(s: Stream)
    requires ScansInOrder(s) && Enabled(s, ScanLine)
    ensures ScansInOrder(Do(s, ScanLine))
  {
    if s.body.Delivering? {
      ScanLineWhileDelivering(s);
    } else {
      ScanLineAfterBody(s);
    }
  }

  /** DONE can only be the line in hand. */
  ghost predicate StopsAtDone(s: Stream) {
    (s.scanned != [] ==> DONE !in s.scanned[..|s.scanned| - 1]) &&
    match s.reader
    case Scanning => DONE !in s.scanned
    case Touching => DONE !in s.scanned
    case Writing(_, line) =>
      s.scanned != [] && s.scanned[|s.scanned| - 1] == line && DONE !in s.scanned[..|s.scanned| - 1]
    case Closing(err) => err.None? ==> Complete(s)
    case Finished(err) => err.None? ==> Complete(s)
  }

  /** Nothing that the proxy would still write is left. */
  ghost predicate Complete(s: Stream) {
    DONE in s.scanned || (s.body.Ended? && s.pos == |s.upstream|)
  }

  /** What the copier has taken, and what is still in the pipe, is the output for the scanned lines. */
  ghost predicate PipeCarriesOutput(s: Stream) {
    match s.reader
    case Scanning => s.taken == Output(s.scanned)
    case Touching => s.taken == Output(s.scanned)
    case Writing(rest, _) => s.taken + rest == Output(s.scanned)
    case Closing(err) => if err.None? then s.taken == Output(s.scanned) else s.taken <= Output(s.scanned)
    case Finished(err) => if err.None? then s.taken == Output(s.scanned) else s.taken <= Output(s.scanned)
  }

  ghost predicate ClientGetsTaken(s: Stream) {
    match s.copier
    case Reading => s.delivered == s.taken
    case Sending(chunk) => s.delivered + chunk == s.taken
    case Reported(err) => if err.None? then s.delivered == s.taken else s.delivered <= s.taken
  }

  ghost predicate CountsScanned(s: Stream) {
    s.counts == MeterLines(s.decode, Counts(0, 0), s.scanned)
  }

  /** No error is told only after the reader has finished without one. */
  ghost predicate VerdictsAreTrue(s: Stream) {
    && (s.reader == Closing(Some(Eof)) ==> s.rerr.Some?)
    && (s.werr == Some(Eof) && s.rerr.None? ==> s.reader == Finished(None))
    && (s.copier == Reported(None) ==> s.reader == Finished(None))
    && (match s.caller
        case CopyDone(err) => s.copier == Reported(err)
        case BodyDone(err) => s.copier == Reported(err)
        case Returned(result, err) =>
          && s.rerr.Some? && s.copier.Reported?
          && (err.None? ==> s.copier == Reported(None) && result == s.counts)
        case ClosingReader => s.werr.Some?
        case ClosingBody => s.werr.Some? && s.rerr.Some?
        case Draining => s.werr.Some? && s.rerr.Some?
        case _ => true)
  }

  /** The counts that a returned call reports are those of the first `k` scanned lines; the client holds
      nothing that is not output for them; and they are all that were ever scanned, unless the copying
      failed. */
  ghost predicate MeteredTo(s: Stream, k: nat)
    requires s.caller.Returned?
  {
    && k <= |s.scanned|
    && s.caller.result == MeterLines(s.decode, Counts(0, 0), s.scanned[..k])
    && s.delivered <= Output(s.scanned[..k])
    && (s.caller.err.None? || s.caller.err == Some(Cancelled) ==> k == |s.scanned|)
  }

  ghost predicate ResultIsMetered(s: Stream) {
    s.caller.Returned? ==> exists k :: MeteredTo(s, k)
  }

  /** Every error has its cause: an end that says cancelled or broken has been, and so on. */
  ghost predicate CausesAreTrue(s: Stream) {
    && (s.werr == Some(Cancelled) || s.rerr == Some(Cancelled) ==> s.cancelled)
    && (s.werr == Some(ReadFailed) ==> s.body.BrokenAt?)
    && s.werr != Some(ClosedPipe) && s.werr != Some(ClientGone)
    && (s.rerr.Some? ==> s.rerr == Some(Cancelled) || s.rerr == Some(Eof))
    && (s.rerr.Some? <==> s.caller.ClosingBody? || s.caller.Draining? || s.caller.Returned?)
    && (match s.reader
        case Closing(err) => ReaderCause(s, err)
        case Finished(err) => ReaderCause(s, err) && s.werr.Some?
        case Writing(rest, _) => rest != []
        case _ => true)
    && (match s.copier
        case Reported(err) =>
          && (err == Some(Cancelled) ==> s.cancelled) && (err == Some(ReadFailed) ==> s.body.BrokenAt?)
          && err != Some(Eof) && (err == Some(ClosedPipe) ==> s.rerr.Some?)
        case _ => true)
    && (match s.caller
        case Returned(_, err) =>
          err.None? || (err == Some(Cancelled) && s.cancelled) || (err == Some(ReadFailed) && s.body.BrokenAt?)
          || (err == Some(ClientGone) && s.copier == Reported(Some(ClientGone)))
        case Selecting => true
        case CopyDone(_) => true
        case BodyDone(_) => true
        case _ => s.cancelled)
  }

  predicate ReaderCause(s: Stream, err: Option<Error>) {
    && (err == Some(Cancelled) ==> s.cancelled) && (err == Some(ReadFailed) ==> s.body.BrokenAt?)
    && err != Some(ClientGone) && (err == Some(ClosedPipe) ==> s.werr.Some?)
  }

  ghost predicate Good(s: Stream) {
    && ScansInOrder(s) && StopsAtDone(s) && PipeCarriesOutput(s)
    && ClientGetsTaken(s) && CountsScanned(s) && VerdictsAreTrue(s)
    && ResultIsMetered(s) && CausesAreTrue(s)
  }

  lemma FreshIsGood(session: string, decode: Decoder, upstream: Bytes)
    ensures Good(Fresh(session, decode, upstream))
  {
    assert upstream[..0] == [];
  }

  lemma DoScansInOrder(s: Stream, a: Action)
    requires Enabled(s, a) && ScansInOrder(s)
    ensures ScansInOrder(Do(s, a))
  {
    match a
    case BodyEnds => BodyStopsInOrder(s, Ended);
    case BodyBreaks(cut) => BodyStopsInOrder(s, BrokenAt(cut));
    case ScanLine => ScanLineInOrder(s);
    case _ =>
  }

  lemma ScanStopsAtDone(s: Stream)
    requires Enabled(s, ScanLine) && StopsAtDone(s)
    ensures StopsAtDone(Do(s, ScanLine))
  {
    hide ScanLines, MeterLine, NextLine, NextPos, Rewrite, Left;
    assert (s.scanned + [NextLine(s)])[..|s.scanned|] == s.scanned;
  }

  lemma TransferStopsAtDone(s: Stream, n: nat)
    requires Enabled(s, Transfer(n)) && StopsAtDone(s)
    ensures StopsAtDone(Do(s, Transfer(n)))
  {
    assert s.scanned == s.scanned[..|s.scanned| - 1] + [s.reader.line];
  }

  lemma SameReaderStopsAtDone(s: Stream, s': Stream)
    requires StopsAtDone(s) && s'.reader == s.reader && s'.scanned == s.scanned
    requires Complete(s) ==> Complete(s')
    ensures StopsAtDone(s')
  {
    hide Complete;
  }

  lemma ReaderMovesStopsAtDone(s: Stream, a: Action)
    requires Enabled(s, a) && ScansInOrder(s) && StopsAtDone(s)
    requires a.SeesCancel? || a.ScanStops? || a.WriteFails? || a.ReaderCloses?
    ensures StopsAtDone(Do(s, a))
  {
    hide ScanLines, Find, MeterLine, NextLine, NextPos, Rewrite, First;
  }

  lemma DoStopsAtDone(s: Stream, a: Action)
    requires Enabled(s, a) && ScansInOrder(s) && StopsAtDone(s)
    ensures StopsAtDone(Do(s, a))
  {
    match a
    case ScanLine => ScanStopsAtDone(s);
    case Transfer(n) => TransferStopsAtDone(s, n);
    case SeesCancel => ReaderMovesStopsAtDone(s, a);
    case ScanStops => ReaderMovesStopsAtDone(s, a);
    case WriteFails => ReaderMovesStopsAtDone(s, a);
    case ReaderCloses => ReaderMovesStopsAtDone(s, a);
    case _ =>
      hide StopsAtDone, ScansInOrder, ScanLines, MeterLine, NextLine, NextPos, Rewrite, First;
      SameReaderStopsAtDone(s, Do(s, a));
  }

  lemma DoPipeCarriesOutput(s: Stream, a: Action)
    requires Enabled(s, a) && StopsAtDone(s) && PipeCarriesOutput(s)
    ensures PipeCarriesOutput(Do(s, a))
  {
    hide ScanLines, Output, MeterLine, Rewrite, NextLine;
    if a.ScanLine? {
      OutputSnoc(s.scanned, NextLine(s));
    } else if a.Transfer? {
      var rest := s.reader.rest;
      assert rest == rest[..a.n] + rest[a.n..];
      assert s.taken + rest[..a.n] + rest[a.n..] == s.taken + rest;
    }
  }

  lemma DoCountsScanned(s: Stream, a: Action)
    requires Enabled(s, a) && CountsScanned(s)
    ensures CountsScanned(Do(s, a))
  {
    hide ScanLines, Output, MeterLine, Rewrite, NextLine;
    if a.ScanLine? {
      assert (s.scanned + [NextLine(s)])[..|s.scanned|] == s.scanned;
    }
  }

  lemma DoClientGetsTaken(s: Stream, a: Action)
    requires Enabled(s, a) && ClientGetsTaken(s)
    ensures ClientGetsTaken(Do(s, a))
  {
    hide ScanLines, Output, MeterLine, Rewrite, NextLine;
  }

  lemma DoVerdictsAreTrue(s: Stream, a: Action)
    requires Enabled(s, a) && VerdictsAreTrue(s)
    ensures VerdictsAreTrue(Do(s, a))
  {
    hide ScanLines, Output, MeterLine, Rewrite, NextLine;
  }

  lemma ReaderCausesAreTrue(s: Stream, a: Action)
    requires Enabled(s, a) && CausesAreTrue(s)
    requires a.ScanLine? || a.SeesCancel? || a.ScanStops? || a.WriteFails? || a.ReaderCloses? || a.Transfer?
    ensures CausesAreTrue(Do(s, a))
  {
    hide ScanLines, Output, MeterLine, NextLine, NextPos, HasLine;
    if a.ScanLine? {
      assert Rewrite(NextLine(s)) != [];
    }
  }

  lemma OtherCausesAreTrue(s: Stream, a: Action)
    requires Enabled(s, a) && VerdictsAreTrue(s) && CausesAreTrue(s)
    requires !a.ScanLine? && !a.SeesCancel? && !a.ScanStops? && !a.WriteFails? && !a.ReaderCloses? && !a.Transfer?
    ensures CausesAreTrue(Do(s, a))
  {
    hide ScanLines, Output, MeterLine, NextLine, NextPos, HasLine, Rewrite;
    if a == CloseReaderLast && s.caller.err.Some? {
      var e := s.caller.err.value;
      assert e == Eof || e == Cancelled || e == ClosedPipe || e == ReadFailed || e == ClientGone;
    }
  }

  lemma DoCausesAreTrue(s: Stream, a: Action)
    requires Enabled(s, a) && VerdictsAreTrue(s) && CausesAreTrue(s)
    ensures CausesAreTrue(Do(s, a))
  {
    hide Enabled, Do, CausesAreTrue, VerdictsAreTrue;
    if a.ScanLine? || a.SeesCancel? || a.ScanStops? || a.WriteFails? || a.ReaderCloses? || a.Transfer? {
      ReaderCausesAreTrue(s, a);
    } else {
      OtherCausesAreTrue(s, a);
    }
  }

  /** What the client holds is output for the scanned lines. */
  lemma ClientHasScanned(s: Stream)
    requires PipeCarriesOutput(s) && ClientGetsTaken(s)
    ensures s.delivered <= Output(s.scanned)
  {
    hide Output;
    assert s.delivered <= s.taken <= Output(s.scanned);
  }

  lemma ReturnIsMetered(s: Stream, a: Action)
    requires Enabled(s, a) && !s.caller.Returned? && Do(s, a).caller.Returned?
    requires CountsScanned(s) && PipeCarriesOutput(s) && ClientGetsTaken(s)
    ensures MeteredTo(Do(s, a), |s.scanned|)
  {
    ClientHasScanned(s);
    hide Output, MeterLines, PipeCarriesOutput, ClientGetsTaken;
    assert s.scanned[..|s.scanned|] == s.scanned;
  }

  lemma ReturnedStaysMetered(s: Stream, a: Action, k: nat)
    requires Enabled(s, a) && s.caller.Returned? && MeteredTo(s, k) && VerdictsAreTrue(s) && CausesAreTrue(s)
    ensures Do(s, a).caller.Returned? && MeteredTo(Do(s, a), k)
  {
    hide Output, MeterLines, ScanLines, MeterLine, Rewrite, NextLine, NextPos, HasLine;
    if a.ScanLine? {
      assert (s.scanned + [NextLine(s)])[..k] == s.scanned[..k];
    }
  }

  lemma DoResultIsMetered(s: Stream, a: Action)
    requires Enabled(s, a) && ResultIsMetered(s) && VerdictsAreTrue(s) && CausesAreTrue(s)
    requires CountsScanned(s) && PipeCarriesOutput(s) && ClientGetsTaken(s)
    ensures ResultIsMetered(Do(s, a))
  {
    hide MeteredTo, VerdictsAreTrue, CausesAreTrue, CountsScanned, PipeCarriesOutput, ClientGetsTaken, Do, Enabled;
    if s.caller.Returned? {
      var k :| MeteredTo(s, k);
      ReturnedStaysMetered(s, a, k);
    } else if Do(s, a).caller.Returned? {
      ReturnIsMetered(s, a);
    }
  }

  lemma DoIsGood(s: Stream, a: Action)
    requires Enabled(s, a) && Good(s)
    ensures Good(Do(s, a))
  {
    hide Do, Enabled, ScansInOrder, StopsAtDone, PipeCarriesOutput, ClientGetsTaken, CountsScanned, VerdictsAreTrue,
         ResultIsMetered, CausesAreTrue;
    DoCausesAreTrue(s, a);
    DoResultIsMetered(s, a);
    DoScansInOrder(s, a);
    DoStopsAtDone(s, a);
    DoPipeCarriesOutput(s, a);
    DoClientGetsTaken(s, a);
    DoCountsScanned(s, a);
    DoVerdictsAreTrue(s, a);
  }

  // ---------------------------------------------------------------------------
  // What a good state says

  lemma ReceivedLines(s: Stream) returns (more: seq<Bytes>)
    requires ScansInOrder(s)
    ensures ScanLines(Received(s)) == s.scanned + more
  {
    more := if s.body.Delivering? then [] else ScanLines(Received(s)[s.pos..]);
  }

  lemma UpstreamLines(s: Stream) returns (more: seq<Bytes>)
    requires ScansInOrder(s) && !s.body.BrokenAt?
    ensures ScanLines(s.upstream) == s.scanned + more
  {
    if s.body.Delivering? {
      ScanInPieces(s.upstream, s.pos);
      more := ScanLines(s.upstream[s.pos..]);
    } else {
      more := ReceivedLines(s);
    }
  }

  /** The body has not broken, or has broken cleanly. */
  predicate Clean(s: Stream) {
    s.body.BrokenAt? ==> s.body.cut <= |s.upstream| && CleanCut(s.upstream, s.body.cut)
  }

  /** The client has a prefix of the output for what was received from upstream: of the output for all
      of upstream unless the body broke uncleanly. */
  lemma ClientHasPrefix(s: Stream)
    requires Good(s)
    ensures s.delivered <= Output(ScanLines(Received(s)))
    ensures Clean(s) ==> s.delivered <= Output(ScanLines(s.upstream))
  {
    assert s.delivered <= s.taken <= Output(s.scanned);
    hide Output, ScanLines, CleanCut;
    var more := ReceivedLines(s);
    OutputGrows(s.scanned, more);
    if !s.body.BrokenAt? {
      var rest := UpstreamLines(s);
      OutputGrows(s.scanned, rest);
    } else if Clean(s) {
      PrefixIffCleanCut(s.upstream, s.body.cut);
    }
  }

  lemma {:induction false} HandlesAll(lines: seq<Bytes>)
    requires lines != [] ==> DONE !in lines[..|lines| - 1]
    ensures Handled(lines) == lines
  {
    if |lines| == 1 {
      assert lines[1..] == [];
    } else if |lines| > 1 {
      var init, rest := lines[..|lines| - 1], lines[1..];
      assert init[0] == lines[0];
      assert rest[..|rest| - 1] == init[1..];
      HandlesAll(rest);
    }
  }

  lemma {:induction false} CompleteLines(s: Stream, all: seq<Bytes>, more: seq<Bytes>)
    requires StopsAtDone(s) && all == s.scanned + more
    requires DONE in s.scanned || more == []
    ensures Output(all) == Output(s.scanned) && Handled(all) == s.scanned
  {
    HandlesAll(s.scanned);
    if DONE in s.scanned {
      DoneEndsOutput(s.scanned, more);
    } else {
      assert all == s.scanned;
    }
  }

  /** The client has the whole output for `b`, and the counts are the final ones. */
  ghost predicate GotAll(s: Stream, b: Bytes)
    requires s.caller.Returned?
  {
    && s.delivered == Output(ScanLines(b))
    && s.caller.result == MeterLines(s.decode, Counts(0, 0), Handled(ScanLines(b)))
  }

  lemma NoErrorMeansReceived(s: Stream)
    requires Good(s) && s.caller.Returned? && s.caller.err.None?
    ensures GotAll(s, Received(s))
    ensures s.body.BrokenAt? ==> DONE in s.scanned
    ensures !s.body.BrokenAt? ==> GotAll(s, s.upstream)
  {
    assert s.delivered == s.taken == Output(s.scanned) && Complete(s);
    assert s.caller.result == MeterLines(s.decode, Counts(0, 0), s.scanned);
    ScanNothing();
    assert s.body.Ended? && s.pos == |s.upstream| ==> s.upstream[s.pos..] == [];
    hide Output, ScanLines, MeterLines;
    var more := ReceivedLines(s);
    if s.body.Ended? && s.pos == |s.upstream| {
      assert more == [] by {
        assert ScanLines(Received(s)) == s.scanned + ScanLines(s.upstream[s.pos..]);
        assert s.scanned + more == s.scanned + [];
      }
    }
    CompleteLines(s, ScanLines(Received(s)), more);
    if s.body.Delivering? {
      var rest := UpstreamLines(s);
      CompleteLines(s, ScanLines(s.upstream), rest);
    }
  }

  /** When the call returns without error the client has the whole output, and the token counts are the
      final ones: those for what was received, and, unless the body broke uncleanly, for all of upstream. */
  lemma NoErrorMeansAll(s: Stream)
    requires Good(s) && s.caller.Returned? && s.caller.err.None?
    ensures GotAll(s, Received(s))
    ensures Clean(s) ==> GotAll(s, s.upstream)
  {
    NoErrorMeansReceived(s);
    if s.body.BrokenAt? && Clean(s) {
      var more := ReceivedLines(s);
      hide Good, Output, ScanLines, MeterLines, Handled, CleanCut;
      CleanCutHasAll(s.upstream, s.body.cut);
    }
  }

  /** The counts that a returned call reports are those of the first `k` lines received, the client holds
      nothing that is not output for them, and after success or cancellation they are all that were read. */
  ghost predicate Covers(s: Stream, k: nat)
    requires s.caller.Returned?
  {
    && k <= |ScanLines(Received(s))|
    && s.caller.result == MeterLines(s.decode, Counts(0, 0), ScanLines(Received(s))[..k])
    && s.delivered <= Output(ScanLines(Received(s))[..k])
    && (s.caller.err.None? || s.caller.err == Some(Cancelled) ==> k == |s.scanned|)
  }

  /** Whatever a call returns with, it has metered all that the client holds. */
  lemma CountsCoverDelivered(s: Stream) returns (k: nat)
    requires Good(s) && s.caller.Returned?
    ensures Covers(s, k) && s.scanned <= ScanLines(Received(s))
  {
    k :| MeteredTo(s, k);
    hide Output, MeterLines, ScanLines;
    var more := ReceivedLines(s);
    assert (s.scanned + more)[..k] == s.scanned[..k];
  }

  /** The call was cancelled, the body broke, or a write to the client failed. */
  predicate HasCause(s: Stream, e: Error) {
    match e
    case Cancelled => s.cancelled
    case ReadFailed => s.body.BrokenAt?
    case ClientGone => s.copier == Reported(Some(ClientGone))
    case _ => false
  }

  /** An error is returned only for its cause, and no other error ever is. */
  lemma ErrorHasCause(s: Stream)
    requires Good(s) && s.caller.Returned? && s.caller.err.Some?
    ensures HasCause(s, s.caller.err.value)
  {
    hide Output, MeterLines, ScanLines;
  }

  /** A body that breaks inside a line gives the client a line that upstream never had. */
  lemma BrokenLineIsForwarded()
    ensures exists upstream: Bytes, cut: nat :: cut <= |upstream| &&
              !(Output(ScanLines(upstream[..cut])) <= Output(ScanLines(upstream)))
  {
    var upstream: Bytes := [97, 98, LF];
    assert upstream[..1] == [97];
    FindUnique(upstream, {LF}, 2);
    FindUnique([97], {LF}, 1);
    assert upstream[..2] == [97, 98] && upstream[3..] == [];
    assert ScanLines(upstream) == [[97, 98]];
    var short: Bytes := [97];
    assert short[..1] == short;
    assert ScanLines(short) == [short];
    assert Output([short]) == [97, LF];
    assert [[97, 98]][1..] == [] && [short][1..] == [];
    assert Output([[97, 98]])[1] == 98;
  }

  // ---------------------------------------------------------------------------
  // After cancellation

  function ReaderRank(r: ReaderAt): nat {
    match r
    case Finished(_) => 0
    case Closing(_) => 1
    case Scanning => 2
    case Touching => 3
    case Writing(rest, _) => 5 + 3 * |rest|
  }

  function CopierRank(c: CopierAt): nat {
    match c
    case Reported(_) => 0
    case Reading => 1
    case Sending(_) => 2
  }

  function CallerRank(c: CallerAt): nat {
    match c
    case Returned(_, _) => 0
    case Draining => 1
    case BodyDone(_) => 1
    case ClosingBody => 2
    case CopyDone(_) => 2
    case ClosingReader => 3
    case ClosingWriter => 4
    case Selecting => 5
  }

  /** How much a cancelled stream has still to do. */
  function Rank(s: Stream): nat {
    ReaderRank(s.reader) + CopierRank(s.copier) + CallerRank(s.caller) + if s.body.Delivering? then 1 else 0
  }

  /** Once cancelled, every step but another cancellation is one towards the end. */
  lemma CancelledGetsOn(s: Stream, a: Action)
    requires s.cancelled && Enabled(s, a) && a != Cancel
    ensures Do(s, a).cancelled && Rank(Do(s, a)) < Rank(s)
  {
    hide First, Rewrite, MeterLine, NextLine, NextPos, Left, Received;
  }

  predicate ByBody(a: Action) {
    a == BodyEnds || a.BodyBreaks?
  }

  /** Nothing but a further cancellation is possible for the stream itself, with the connection manager
      included; the upstream body may still do something. */
  ghost predicate Idle(s: Stream) {
    && (forall a :: a != Cancel && !ByBody(a) ==> !Enabled(s, a))
    && !s.reader.Touching? && !s.caller.ClosingBody? && !s.caller.CopyDone?
  }

  /** The caller has returned, the copier has reported, and the reader is done. */
  predicate Over(s: Stream) {
    s.caller.Returned? && s.copier.Reported? && s.reader.Finished?
  }

  /** Only the reader is left, waiting for a body that neither delivers a line nor stops. */
  predicate AwaitsBody(s: Stream) {
    s.caller.Returned? && s.copier.Reported? && s.reader.Scanning? && s.body.Delivering? && !HasLine(s)
  }

  /** A cancelled stream comes to rest only when all of it is over, or all but the reader. */
  lemma CancelledIdleIsOver(s: Stream)
    requires Good(s) && s.cancelled && Idle(s)
    ensures Over(s) || AwaitsBody(s)
  {
    hide ScansInOrder, StopsAtDone, PipeCarriesOutput, ClientGetsTaken, CountsScanned, HasLine, ResultIsMetered;
    assert !Enabled(s, PicksCancel) && !Enabled(s, CloseWriter) && !Enabled(s, CloseReader);
    assert !Enabled(s, Drain) && !Enabled(s, CloseReaderLast);
    assert !Enabled(s, PipeCloses) && !Enabled(s, Send);
    assert !Enabled(s, WriteFails) && !Enabled(s, ReaderCloses);
    assert !Enabled(s, SeesCancel) && !Enabled(s, ScanStops);
  }

  /** Reading from a body that still delivers can fail at any time, and does once it has been closed. */
  lemma BodyCanBreak(s: Stream)
    requires Good(s) && s.body.Delivering?
    ensures Enabled(s, BodyBreaks(s.pos))
  {
    hide StopsAtDone, PipeCarriesOutput, ClientGetsTaken, CountsScanned, VerdictsAreTrue, ScanLines;
  }

  /** So when nothing at all is possible any more, all of the cancelled stream is over. */
  lemma CancelledQuietIsOver(s: Stream)
    requires Good(s) && s.cancelled && Idle(s) && (forall a :: ByBody(a) ==> !Enabled(s, a))
    ensures Over(s)
  {
    CancelledIdleIsOver(s);
    hide Good, Idle, Over, HasLine, Enabled;
    if s.body.Delivering? {
      assert ByBody(BodyBreaks(s.pos));
      BodyCanBreak(s);
    }
  }

  // ---------------------------------------------------------------------------
  // Every stream gets on

  /** How much any stream, cancelled or not, has still to do. */
  function Work(s: Stream): int {
    13 * (|s.upstream| - s.pos) + Rank(s)
  }

  lemma LineIsShort(s: Stream)
    requires Enabled(s, ScanLine)
    ensures s.pos < NextPos(s) && |Rewrite(NextLine(s))| <= NextPos(s) - s.pos + 2
  {
  }

  /** Every step but a cancellation is one towards the end. */
  lemma StreamGetsOn(s: Stream, a: Action)
    requires Enabled(s, a) && a != Cancel
    ensures Work(Do(s, a)) < Work(s)
  {
    hide First, Rewrite, MeterLine, NextLine, NextPos, Left, Received;
    if a.ScanLine? {
      LineIsShort(s);
    }
  }

  lemma WorkIsLeft(s: Stream)
    requires Good(s)
    ensures Work(s) >= Rank(s)
  {
    hide StopsAtDone, PipeCarriesOutput, ClientGetsTaken, CountsScanned, VerdictsAreTrue, ResultIsMetered,
         CausesAreTrue, ScanLines;
  }

  /** All is quiet because the upstream neither delivers a line nor stops. */
  predicate AwaitsUpstream(s: Stream) {
    s.caller.Selecting? && s.copier.Reading? && s.reader.Scanning? && s.body.Delivering? && !HasLine(s)
  }

  lemma IdleIsDisabled(s: Stream)
    requires Idle(s)
    ensures !Enabled(s, PicksCopy) && !Enabled(s, CloseReaderLast) && !Enabled(s, PipeCloses) && !Enabled(s, Send)
    ensures !Enabled(s, WriteFails) && !Enabled(s, ReaderCloses) && !Enabled(s, ScanLine) && !Enabled(s, ScanStops)
    ensures !Enabled(s, Transfer(1))
    ensures !s.reader.Touching? && !s.caller.ClosingBody? && !s.caller.CopyDone?
  {
    hide Enabled;
  }

  lemma UncancelledIsOver(s: Stream)
    requires VerdictsAreTrue(s) && CausesAreTrue(s) && !s.cancelled && Idle(s)
    ensures Over(s) || AwaitsBody(s) || AwaitsUpstream(s)
  {
    IdleIsDisabled(s);
    hide Idle, HasLine;
  }

  /** No stream gets stuck: at rest all of it is over, or it waits for its upstream. */
  lemma IdleIsOver(s: Stream)
    requires Good(s) && Idle(s)
    ensures Over(s) || AwaitsBody(s) || (!s.cancelled && AwaitsUpstream(s))
  {
    if s.cancelled {
      CancelledIdleIsOver(s);
    } else {
      hide ScansInOrder, StopsAtDone, PipeCarriesOutput, ClientGetsTaken, CountsScanned, HasLine, ResultIsMetered, Idle;
      hide VerdictsAreTrue, CausesAreTrue, Over, AwaitsBody, AwaitsUpstream;
      UncancelledIsOver(s);
    }
  }
}
