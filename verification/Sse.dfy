// Server-sent events: what a byte stream means to a client, by section 9.2.6 of the WHATWG HTML
// Living Standard, and how the proxy rewrites its lines.
module Sse {

  newtype byte = x: int | 0 <= x < 256

  type Bytes = seq<byte>

  const LF: byte := 10
  const CR: byte := 13
  const COLON: byte := 58
  const SPACE: byte := 32
  const NUL: byte := 0
  const BOM: Bytes := [0xEF, 0xBB, 0xBF]

  // "data", "event", "id", "message", "data: ", "data: [DONE]"
  const DATA: Bytes := [100, 97, 116, 97]
  const EVENT: Bytes := [101, 118, 101, 110, 116]
  const ID: Bytes := [105, 100]
  const MESSAGE: Bytes := [109, 101, 115, 115, 97, 103, 101]
  const PREFIX: Bytes := DATA + [COLON, SPACE]
  const DONE: Bytes := PREFIX + [91, 68, 79, 78, 69, 93]

  // ---------------------------------------------------------------------------
  // Lines

  /** The index of the first of the given bytes, or the length. */
  function Find(b: Bytes, stops: set<byte>): (i: nat)
    ensures i <= |b| && (i < |b| ==> b[i] in stops)
    ensures forall j :: 0 <= j < i ==> b[j] !in stops
  {
    if b == [] || b[0] in stops then 0 else 1 + Find(b[1..], stops)
  }

  function DropCR(line: Bytes): Bytes {
    if line != [] && line[|line| - 1] == CR then line[..|line| - 1] else line
  }

  /** The tokens of Go's line scanner: an unterminated last line is one too. */
  function ScanLines(b: Bytes): seq<Bytes>
    decreases |b|
  {
    if b == [] then []
    else
      var i := Find(b, {LF});
      [DropCR(b[..i])] + if i < |b| then ScanLines(b[i + 1..]) else []
  }

  /** Where the first line of the standard ends. */
  function LineEnd(b: Bytes): (i: nat)
    ensures i <= |b|
  {
    Find(b, {LF, CR})
  }

  /** The length of the line break at `i`: CR LF is one break. */
  function BreakAt(b: Bytes, i: nat): (n: nat)
    requires i < |b|
    ensures 1 <= n <= |b| - i
  {
    if b[i] == CR && i + 1 < |b| && b[i + 1] == LF then 2 else 1
  }

  /** The lines of the standard end with CR LF, LF or CR; an unterminated tail is not a line. */
  function SplitLines(b: Bytes): seq<Bytes>
    decreases |b|
  {
    var i := LineEnd(b);
    if i == |b| then [] else [b[..i]] + SplitLines(b[i + BreakAt(b, i)..])
  }

  function StripBom(b: Bytes): Bytes {
    if BOM <= b then b[3..] else b
  }

  // ---------------------------------------------------------------------------
  // Interpretation

  datatype Message = Message(kind: Bytes, data: Bytes, id: Bytes)

  /** The three buffers; `data` is empty or ends with LF. */
  datatype Buffers = Buffers(data: Bytes, kind: Bytes, id: Bytes)

  const START := Buffers([], [], [])

  /** What a blank line would dispatch. */
  function Pending(s: Buffers): Message
    requires s.data != []
  {
    Message(if s.kind == [] then MESSAGE else s.kind, s.data[..|s.data| - 1], s.id)
  }

  function Dispatched(s: Buffers): seq<Message> {
    if s.data == [] then [] else [Pending(s)]
  }

  function Reset(s: Buffers): Buffers {
    Buffers([], [], s.id)
  }

  function FieldOf(line: Bytes): (Bytes, Bytes) {
    var i := Find(line, {COLON});
    if i == |line| then (line, [])
    else
      var value := line[i + 1..];
      (line[..i], if value != [] && value[0] == SPACE then value[1..] else value)
  }

  /** A line that is not blank; one that begins with a colon has an empty field name and is ignored. */
  function Field(s: Buffers, line: Bytes): Buffers {
    var (name, value) := FieldOf(line);
    if name == DATA then s.(data := s.data + value + [LF])
    else if name == EVENT then s.(kind := value)
    else if name == ID && NUL !in value then s.(id := value)
    else s
  }

  function Interpret(s: Buffers, lines: seq<Bytes>): seq<Message>
    decreases |lines|
  {
    if lines == [] then []
    else if lines[0] == [] then Dispatched(s) + Interpret(Reset(s), lines[1..])
    else Interpret(Field(s, lines[0]), lines[1..])
  }

  /** The messages of a whole stream. */
  function Messages(b: Bytes): seq<Message> {
    Interpret(START, SplitLines(StripBom(b)))
  }

  // ---------------------------------------------------------------------------
  // The proxy's rewriting

  predicate IsData(line: Bytes) {
    PREFIX <= line
  }

  /** What the proxy writes for one scanned line. */
  function Rewrite(line: Bytes): Bytes {
    if IsData(line) then line + [LF, LF] else line + [LF]
  }

  /** Everything it writes: it stops after the first DONE. */
  function Output(lines: seq<Bytes>): Bytes {
    if lines == [] then []
    else Rewrite(lines[0]) + if lines[0] == DONE then [] else Output(lines[1..])
  }

  lemma {:induction false} FindUnique(b: Bytes, stops: set<byte>, i: nat)
    requires i <= |b| && (i < |b| ==> b[i] in stops) && (forall j :: 0 <= j < i ==> b[j] !in stops)
    ensures Find(b, stops) == i
  {
    var k := Find(b, stops);
    assert !(k < i) && !(i < k);
  }
}
