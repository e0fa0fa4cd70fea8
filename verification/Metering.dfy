// The reader of one proxied stream: it rewrites lines and keeps the token counts.
module Metering {
  import opened Common
  import opened Sse

  datatype Usage = Usage(prompt: int, completion: int)

  /** A decoded data line: the contents of its choices, as runes, and its usage if it has one. */
  datatype Chunk = Chunk(contents: seq<string>, usage: Option<Usage>) {
    predicate Final() {
      usage.Some? && usage.value.prompt > 0
    }
  }

  /** JSON decoding of a line's data, as far as the reader looks at it. */
  type Decoder = Bytes -> Option<Chunk>

  datatype Counts = Counts(prompt: int, completion: int)

  function Tokens(content: string): nat {
    if content == "" then 0
    else if |content| / 4 == 0 then 1 else |content| / 4
  }

  function Estimate(contents: seq<string>): nat {
    if contents == [] then 0 else Estimate(contents[..|contents| - 1]) + Tokens(contents[|contents| - 1])
  }

  function Meter(c: Counts, chunk: Chunk): Counts {
    if chunk.Final() then Counts(chunk.usage.value.prompt, chunk.usage.value.completion)
    else c.(completion := c.completion + Estimate(chunk.contents))
  }

  /** What one scanned line does to the counts. */
  function MeterLine(decode: Decoder, c: Counts, line: Bytes): Counts {
    if !IsData(line) || line == DONE then c
    else
      match decode(line[|PREFIX|..])
      case None => c
      case Some(chunk) => Meter(c, chunk)
  }

  function MeterLines(decode: Decoder, c: Counts, lines: seq<Bytes>): Counts {
    if lines == [] then c
    else MeterLine(decode, MeterLines(decode, c, lines[..|lines| - 1]), lines[|lines| - 1])
  }

  /** The lines the reader handles: up to and including the first DONE. */
  function Handled(lines: seq<Bytes>): (r: seq<Bytes>)
    ensures r <= lines
  {
    if lines == [] then []
    else [lines[0]] + if lines[0] == DONE then [] else Handled(lines[1..])
  }

  class Reader {
    const decode: Decoder
    var promptTokens: int
    var completionTokens: int
    var written: Bytes

    constructor (decode: Decoder)
      ensures this.decode == decode && Result() == Counts(0, 0) && written == []
    {
      this.decode := decode;
      promptTokens, completionTokens, written := 0, 0, [];
    }

    function Result(): Counts
      reads this
    {
      Counts(promptTokens, completionTokens)
    }

    method Count(chunk: Chunk)
      modifies this`promptTokens, this`completionTokens
      ensures Result() == Meter(old(Result()), chunk)
    {
      if chunk.usage.Some? && chunk.usage.value.prompt > 0 {
        promptTokens := chunk.usage.value.prompt;
        completionTokens := chunk.usage.value.completion;
      } else {
        for i := 0 to |chunk.contents|
          invariant promptTokens == old(promptTokens)
          invariant completionTokens == old(completionTokens) + Estimate(chunk.contents[..i])
        {
          assert chunk.contents[..i + 1][..i] == chunk.contents[..i];
          var c := chunk.contents[i];
          if c != "" {
            var t := |c| / 4;
            if t == 0 {
              t := 1;
            }
            completionTokens := completionTokens + t;
          }
        }
        assert chunk.contents[..|chunk.contents|] == chunk.contents;
      }
    }

    /** One round of the loop; `stop` after DONE. */
    method ForwardLine(line: Bytes) returns (stop: bool)
      modifies this
      ensures written == old(written) + Rewrite(line)
      ensures Result() == MeterLine(decode, old(Result()), line)
      ensures stop <==> line == DONE
    {
      if !(PREFIX <= line) {
        written := written + (line + [LF]);
        return false;
      }
      var data := line[|PREFIX|..];
      assert PREFIX + data == line;
      if data == DONE[|PREFIX|..] {
        written := written + (DONE + [LF, LF]);
        return true;
      }
      var chunk := decode(data);
      if chunk.Some? {
        Count(chunk.value);
      }
      written := written + (PREFIX + data + [LF, LF]);
      return false;
    }

    /** All the scanned lines of a stream, when every write goes through. */
    method Forward(lines: seq<Bytes>)
      modifies this
      ensures written == old(written) + Output(lines)
      ensures Result() == MeterLines(decode, old(Result()), Handled(lines))
    {
      hide Rewrite, MeterLine, MeterLines, Output, Handled;
      Rest(lines, 0);
      Nothing(decode, Result());
      for i := 0 to |lines|
        invariant DONE !in lines[..i] && Handled(lines[..i]) == lines[..i]
        invariant written + Output(lines[i..]) == old(written) + Output(lines)
        invariant Result() == MeterLines(decode, old(Result()), lines[..i])
      {
        assert lines[..i + 1][..i] == lines[..i];
        HandledNext(lines, i);
        MeterNext(decode, old(Result()), lines, i);
        Rest(lines, i);
        var stop := ForwardLine(lines[i]);
        if stop {
          return;
        }
      }
      assert lines[..|lines|] == lines;
      Rest(lines, |lines|);
    }
  }

  lemma {:induction false} Nothing(decode: Decoder, c: Counts)
    ensures MeterLines(decode, c, []) == c && Handled([]) == []
  {
  }

  lemma {:induction false} MeterNext(decode: Decoder, c: Counts, lines: seq<Bytes>, i: nat)
    requires i < |lines|
    ensures MeterLines(decode, c, lines[..i + 1]) == MeterLine(decode, MeterLines(decode, c, lines[..i]), lines[i])
  {
    assert lines[..i + 1][..i] == lines[..i];
  }

  lemma Rest(lines: seq<Bytes>, i: nat)
    requires i <= |lines|
    ensures lines[0..] == lines
    ensures i == |lines| ==> Output(lines[i..]) == []
    ensures i < |lines| ==>
              Output(lines[i..]) == Rewrite(lines[i]) + if lines[i] == DONE then [] else Output(lines[i + 1..])
  {
    if i < |lines| {
      assert lines[i..][1..] == lines[i + 1..];
    }
  }

  lemma {:induction false} HandledFirst(line: Bytes, rest: seq<Bytes>)
    ensures Handled([line] + rest) == [line] + if line == DONE then [] else Handled(rest)
  {
    assert ([line] + rest)[1..] == rest;
  }

  lemma {:induction false} HandledNext(lines: seq<Bytes>, i: nat)
    requires i < |lines| && DONE !in lines[..i]
    ensures lines[i] == DONE ==> Handled(lines) == lines[..i + 1]
    ensures lines[i] != DONE ==> Handled(lines[..i + 1]) == lines[..i + 1]
  {
    var first, rest := lines[0], lines[1..];
    assert lines == [first] + rest;
    HandledFirst(first, rest);
    if i == 0 {
      assert lines[..1] == [first] + [];
      HandledFirst(first, []);
    } else {
      assert first == lines[..i][0];
      assert rest[..i - 1] == lines[..i][1..];
      assert DONE !in rest[..i - 1];
      assert lines[..i + 1] == [first] + rest[..i];
      HandledFirst(first, rest[..i]);
      hide Handled;
      HandledNext(rest, i - 1);
    }
  }

  // ---------------------------------------------------------------------------
  // What the counts mean

  /** The decoded chunks of handled lines. */
  function ChunksOf(decode: Decoder, lines: seq<Bytes>): seq<Chunk> {
    if lines == [] then []
    else
      var line := lines[|lines| - 1];
      ChunksOf(decode, lines[..|lines| - 1]) +
      if !IsData(line) || line == DONE then []
      else match decode(line[|PREFIX|..]) case None => [] case Some(chunk) => [chunk]
  }

  function MeterChunks(c: Counts, chunks: seq<Chunk>): Counts {
    if chunks == [] then c else Meter(MeterChunks(c, chunks[..|chunks| - 1]), chunks[|chunks| - 1])
  }

  lemma {:induction false} LinesMeterChunks(decode: Decoder, c: Counts, lines: seq<Bytes>)
    ensures MeterLines(decode, c, lines) == MeterChunks(c, ChunksOf(decode, lines))
  {
    if lines != [] {
      var init := lines[..|lines| - 1];
      LinesMeterChunks(decode, c, init);
      var before, after := ChunksOf(decode, init), ChunksOf(decode, lines);
      if |after| == |before| {
        assert after == before;
      } else {
        assert after[..|before|] == before;
      }
    }
  }

  function Runes(contents: seq<string>): nat {
    if contents == [] then 0 else Runes(contents[..|contents| - 1]) + |contents[|contents| - 1]|
  }

  function AllRunes(chunks: seq<Chunk>): nat {
    if chunks == [] then 0 else AllRunes(chunks[..|chunks| - 1]) + Runes(chunks[|chunks| - 1].contents)
  }

  function AllEstimates(chunks: seq<Chunk>): nat {
    if chunks == [] then 0 else AllEstimates(chunks[..|chunks| - 1]) + Estimate(chunks[|chunks| - 1].contents)
  }

  lemma {:induction false} EstimateWithinSeven(contents: seq<string>)
    ensures Estimate(contents) <= Runes(contents) <= 7 * Estimate(contents)
  {
    if contents != [] {
      EstimateWithinSeven(contents[..|contents| - 1]);
    }
  }

  lemma {:induction false} AllWithinSeven(chunks: seq<Chunk>)
    ensures AllEstimates(chunks) <= AllRunes(chunks) <= 7 * AllEstimates(chunks)
  {
    if chunks != [] {
      AllWithinSeven(chunks[..|chunks| - 1]);
      EstimateWithinSeven(chunks[|chunks| - 1].contents);
    }
  }

  lemma {:induction false} WithoutFinal(c: Counts, chunks: seq<Chunk>)
    requires forall k :: k in chunks ==> !k.Final()
    ensures MeterChunks(c, chunks) == Counts(c.prompt, c.completion + AllEstimates(chunks))
  {
    if chunks != [] {
      assert chunks[|chunks| - 1] in chunks;
      WithoutFinal(c, chunks[..|chunks| - 1]);
    }
  }

  lemma {:induction false} MeterSplit(c: Counts, a: seq<Chunk>, b: seq<Chunk>)
    ensures MeterChunks(c, a + b) == MeterChunks(MeterChunks(c, a), b)
  {
    if b == [] {
      assert a + b == a;
    } else {
      assert (a + b)[..|a + b| - 1] == a + b[..|b| - 1];
      MeterSplit(c, a, b[..|b| - 1]);
    }
  }

  /** How many contents there are, and how many of them are short: not empty, but of less than four runes. */
  function Contents(chunks: seq<Chunk>): nat {
    if chunks == [] then 0 else Contents(chunks[..|chunks| - 1]) + |chunks[|chunks| - 1].contents|
  }

  function ShortOf(contents: seq<string>): nat {
    if contents == [] then 0
    else ShortOf(contents[..|contents| - 1]) + if 0 < |contents[|contents| - 1]| < 4 then 1 else 0
  }

  function Short(chunks: seq<Chunk>): nat {
    if chunks == [] then 0 else Short(chunks[..|chunks| - 1]) + ShortOf(chunks[|chunks| - 1].contents)
  }

  lemma {:induction false} EstimateIsQuarter(contents: seq<string>)
    ensures 4 * Estimate(contents) <= Runes(contents) + 3 * ShortOf(contents)
    ensures Runes(contents) <= 4 * Estimate(contents) + 3 * |contents|
  {
    if contents != [] {
      EstimateIsQuarter(contents[..|contents| - 1]);
    }
  }

  lemma {:induction false} AllAreQuarter(chunks: seq<Chunk>)
    ensures 4 * AllEstimates(chunks) <= AllRunes(chunks) + 3 * Short(chunks)
    ensures AllRunes(chunks) <= 4 * AllEstimates(chunks) + 3 * Contents(chunks)
  {
    if chunks != [] {
      AllAreQuarter(chunks[..|chunks| - 1]);
      EstimateIsQuarter(chunks[|chunks| - 1].contents);
    }
  }

  /** The chunk has a usage report with prompt tokens. */
  predicate Reports(k: Chunk) {
    match k.usage
    case None => false
    case Some(usage) => usage.prompt > 0
  }

  lemma {:induction false} EstimatesAlone(decode: Decoder, lines: seq<Bytes>)
    requires forall k :: k in ChunksOf(decode, Handled(lines)) ==> !Reports(k)
    ensures MeterLines(decode, Counts(0, 0), Handled(lines))
            == Counts(0, AllEstimates(ChunksOf(decode, Handled(lines))))
  {
    LinesMeterChunks(decode, Counts(0, 0), Handled(lines));
    WithoutFinal(Counts(0, 0), ChunksOf(decode, Handled(lines)));
  }

  /** One content of `n` runes counts as a quarter of them, rounded down, but as one if it has any. */
  lemma {:induction false} ContentIsWorth(decode: Decoder, lines: seq<Bytes>, content: string, usage: Option<Usage>)
    requires ChunksOf(decode, Handled(lines)) == [Chunk([content], usage)]
    requires usage.None? || usage.value.prompt <= 0
    ensures var r, n := MeterLines(decode, Counts(0, 0), Handled(lines)), |content|;
            && r.prompt == 0
            && (n == 0 ==> r.completion == 0)
            && (0 < n < 4 ==> r.completion == 1)
            && (n >= 4 ==> 4 * r.completion <= n < 4 * r.completion + 4)
  {
    var chunk := Chunk([content], usage);
    EstimatesAlone(decode, lines);
    assert [chunk][..0] == [] && [content][..0] == [];
    assert AllEstimates([chunk]) == AllEstimates([]) + Estimate([content]);
    assert Estimate([content]) == Estimate([]) + Tokens(content);
  }

  /** Without a usage report the completion count E of R runes in N contents, S of them short, is a quarter
      of the runes: 4 E exceeds R by three for each short content at most, and falls short of it by three
      for each content at most. No prompt tokens are counted. */
  lemma {:induction false} EstimateIsAQuarter(decode: Decoder, lines: seq<Bytes>)
    requires forall k :: k in ChunksOf(decode, Handled(lines)) ==> !Reports(k)
    ensures var r, chunks := MeterLines(decode, Counts(0, 0), Handled(lines)), ChunksOf(decode, Handled(lines));
            && r.prompt == 0
            && 4 * r.completion <= AllRunes(chunks) + 3 * Short(chunks)
            && AllRunes(chunks) <= 4 * r.completion + 3 * Contents(chunks)
  {
    EstimatesAlone(decode, lines);
    AllAreQuarter(ChunksOf(decode, Handled(lines)));
  }

  /** Without a usage report the completion count is an estimate of the runes, never above them and
      never below a seventh of them, however they are cut into chunks; no prompt tokens are counted. */
  lemma {:induction false} EstimateIsWithinSeven(decode: Decoder, lines: seq<Bytes>)
    requires forall k :: k in ChunksOf(decode, Handled(lines)) ==> !Reports(k)
    ensures var r := MeterLines(decode, Counts(0, 0), Handled(lines));
            var runes := AllRunes(ChunksOf(decode, Handled(lines)));
            r.prompt == 0 && r.completion <= runes <= 7 * r.completion
  {
    EstimatesAlone(decode, lines);
    AllWithinSeven(ChunksOf(decode, Handled(lines)));
  }

  lemma {:induction false} FinalOverrides(c: Counts, before: seq<Chunk>, final: Chunk)
    requires Reports(final)
    ensures MeterChunks(c, before + [final]) == Counts(final.usage.value.prompt, final.usage.value.completion)
  {
    assert (before + [final])[..|before|] == before;
  }

  /** The last usage report overrides all before it; only later chunks are estimated on top. */
  lemma {:induction false} LastUsageCounts(decode: Decoder, lines: seq<Bytes>, before: seq<Chunk>, final: Chunk,
                                                after: seq<Chunk>)
    requires ChunksOf(decode, Handled(lines)) == before + [final] + after
    requires Reports(final) && (forall k :: k in after ==> !Reports(k))
    ensures MeterLines(decode, Counts(0, 0), Handled(lines)) ==
            Counts(final.usage.value.prompt, final.usage.value.completion + AllEstimates(after))
  {
    var c := Counts(0, 0);
    LinesMeterChunks(decode, c, Handled(lines));
    hide MeterLines, ChunksOf, Handled, MeterChunks, AllEstimates;
    MeterSplit(c, before + [final], after);
    FinalOverrides(c, before, final);
    WithoutFinal(MeterChunks(c, before + [final]), after);
  }
}
