/** Message bodies: what the HTTP parser reports of a chunked body and of a body with a Content-Length. */
module LlhttpChunks {
  import opened Bytes
  import opened LlhttpTypes
  import opened LlhttpTables
  import opened Llparse
  import opened LlparseBulk
  import opened LlhttpProgram
  import opened LlhttpNumbers

  const CRLF: seq<byte> := [CR, LF]

  /** A chunk as section 4.1 of RFC 7230 writes it: a hexadecimal size, an extension, and the octets. */
  datatype Chunk = Chunk(size: seq<byte>, ext: seq<byte>, data: seq<byte>)

  /** An extension is empty or begins with a semicolon or a space, and holds no CR. */
  predicate IsExtension(ext: seq<byte>) {
    && (|ext| > 0 ==> ext[0] == SP || ext[0] == 0x3b)
    && forall i {:trigger ext[i]} | 0 <= i < |ext| :: ext[i] != CR
  }

  predicate IsChunk(k: Chunk) {
    && |k.data| > 0
    && IsSize(k.size, |k.data|) && IsExtension(k.ext)
  }

  predicate IsSize(size: seq<byte>, n: nat) {
    |size| > 0 && IsNumeral(Hex, size) && Number(Hex, size) == n <= UINT64_MAX
  }

  // ---------------------------------------------------------------- from the size to the callback

  lemma ChunkStart(c: Config, input: seq<byte>)
    requires HttpReady(c) && c.place == Body(UpdateContentLength)
    ensures var d := c.(place := Body(ChunkSize), fields := c.fields.(contentLength := 0));
      HttpReady(d) && HttpRun(GO_ON, c, input) == HttpRun(GO_ON, d, input)
  {
    Slide(GO_ON, c, input, c.(place := Body(ChunkSize), fields := c.fields.(contentLength := 0)));
  }

  lemma {:induction false} ChunkExtensionRest(c: Config, ext: seq<byte>, rest: seq<byte>)
    requires HttpReady(c) && c.place == Body(ChunkParameters)
    requires forall i {:trigger ext[i]} | 0 <= i < |ext| :: ext[i] != CR
    ensures HttpRun(GO_ON, c, ext + rest) == HttpRun(GO_ON, c, rest)
    decreases |ext|
  {
    if |ext| == 0 {
      assert ext + rest == rest;
    } else {
      assert c.pending.None?;
      Take(GO_ON, c, ext + rest, c);
      assert (ext + rest)[1..] == ext[1..] + rest;
      ChunkExtensionRest(c, ext[1..], rest);
    }
  }

  lemma ExtensionOpened(c: Config, input: seq<byte>)
    requires HttpReady(c) && c.place == Body(ChunkSize) && |input| > 0 && Hexadecimal(input[0]).None?
    ensures var d := c.(place := Body(ChunkSizeOtherwise));
      HttpReady(d) && HttpRun(GO_ON, c, input) == HttpRun(GO_ON, d, input)
  {
    assert c.pending.None?;
    Slide(GO_ON, c, input, c.(place := Body(ChunkSizeOtherwise)));
  }

  lemma ExtensionFirst(c: Config, input: seq<byte>)
    requires HttpReady(c) && c.place == Body(ChunkSizeOtherwise)
    requires |input| > 0 && (input[0] == CR || input[0] == SP || input[0] == 0x3b)
    ensures var d := c.(place := Body(if input[0] == CR then ChunkSizeAlmostDone else ChunkParameters));
      HttpReady(d) && HttpRun(GO_ON, c, input) == HttpRun(GO_ON, d, input[1..])
  {
    assert c.pending.None?;
    Take(GO_ON, c, input, c.(place := Body(if input[0] == CR then ChunkSizeAlmostDone else ChunkParameters)));
  }

  lemma ExtensionLast(c: Config, rest: seq<byte>)
    requires HttpReady(c) && c.place == Body(ChunkParameters)
    ensures var d := c.(place := Body(ChunkSizeAlmostDone));
      HttpReady(d) && HttpRun(GO_ON, c, [CR] + rest) == HttpRun(GO_ON, d, rest)
  {
    assert c.pending.None? && ([CR] + rest)[1..] == rest;
    Take(GO_ON, c, [CR] + rest, c.(place := Body(ChunkSizeAlmostDone)));
  }

  lemma ChunkExtension(c: Config, ext: seq<byte>, rest: seq<byte>)
    requires HttpReady(c) && c.place == Body(ChunkSize) && IsExtension(ext)
    ensures var d := c.(place := Body(ChunkSizeAlmostDone));
      HttpReady(d) && HttpRun(GO_ON, c, ext + [CR] + rest) == HttpRun(GO_ON, d, rest)
  {
    hide HttpRun, HttpReady;
    var input := ext + [CR] + rest;
    ExtensionOpened(c, input);
    ExtensionFirst(c.(place := Body(ChunkSizeOtherwise)), input);
    if |ext| == 0 {
      assert input[1..] == rest;
    } else {
      var p := c.(place := Body(ChunkParameters));
      assert input[1..] == ext[1..] + ([CR] + rest);
      ChunkExtensionRest(p, ext[1..], [CR] + rest);
      ExtensionLast(p, rest);
    }
  }

  lemma ChunkCalled(c: Config, rest: seq<byte>)
    requires HttpReady(c) && c.place == Body(ChunkSizeAlmostDone)
    ensures var d := c.(place := Body(IsEqualContentLength), out := c.out + [Marked(ChunkHeader, c.fields)]);
      HttpReady(d) && HttpRun(GO_ON, c, [LF] + rest) == HttpRun(GO_ON, d, rest)
  {
    assert ([LF] + rest)[1..] == rest;
    var e := c.(place := Body(OnChunkHeader));
    assert c.pending.None?;
    Take(GO_ON, c, [LF] + rest, e);
    Slide(GO_ON, e, rest, c.(place := Body(IsEqualContentLength), out := c.out + [Marked(ChunkHeader, c.fields)]));
  }

  lemma ChunkNumber(c: Config, size: seq<byte>, n: nat, rest: seq<byte>)
    requires HttpReady(c) && c.place == Body(ChunkSize) && c.fields.contentLength == 0 && IsSize(size, n)
    ensures var d := c.(fields := c.fields.(contentLength := n));
      HttpReady(d) && HttpRun(GO_ON, c, size + rest) == HttpRun(GO_ON, d, rest)
  {
    assert c.pending.None?;
    assert [] + size == size;
    CountedIsNumber(Hex, 0, [], size);
    LlhttpCounts(ChunkSizes, GO_ON);
    DigitsFit(LLHTTP, ChunkSizes, GO_ON, c, size, rest);
  }

  /** The line with the size of a chunk: the caller sees the size in contentLength. */
  lemma ChunkHead(c: Config, size: seq<byte>, n: nat, ext: seq<byte>, rest: seq<byte>)
    requires HttpReady(c) && c.place == Body(UpdateContentLength)
    requires IsSize(size, n) && IsExtension(ext)
    ensures var f := c.fields.(contentLength := n);
      var d := c.(place := Body(IsEqualContentLength), fields := f, out := c.out + [Marked(ChunkHeader, f)]);
      HttpReady(d) && HttpRun(GO_ON, c, size + ext + CRLF + rest) == HttpRun(GO_ON, d, rest)
  {
    var tail := ext + [CR] + ([LF] + rest);
    assert size + ext + CRLF + rest == size + tail;
    ChunkStart(c, size + tail);
    var d := c.(place := Body(ChunkSize), fields := c.fields.(contentLength := 0));
    ChunkNumber(d, size, n, tail);
    var e := d.(fields := c.fields.(contentLength := n));
    ChunkExtension(e, ext, [LF] + rest);
    ChunkCalled(e.(place := Body(ChunkSizeAlmostDone)), rest);
  }

  // ---------------------------------------------------------------- the octets of a body

  /** The two places that take a body of contentLength octets. */
  predicate BodyPlace(start: BodyLabel, consume: BodyLabel, end: BodyLabel) {
    || (start, consume, end) == (SpanStartBody, ConsumeContentLength, SpanEndBody)
    || (start, consume, end) == (SpanStartBody1, ConsumeContentLength1, SpanEndBody1)
  }

  lemma BodyOpened(c: Config, input: seq<byte>, start: BodyLabel, consume: BodyLabel, end: BodyLabel)
    requires BodyPlace(start, consume, end) && |input| > 0
    requires HttpReady(c) && c.place == Body(start)
    ensures var d := c.(place := Body(consume), pending := Some(Pending(BodySpan, [])));
      HttpReady(d) && HttpRun(GO_ON, c, input) == HttpRun(GO_ON, d, input)
  {
    Slide(GO_ON, c, input, c.(place := Body(consume), pending := Some(Pending(BodySpan, []))));
  }

  lemma BodyConsumed(c: Config, data: seq<byte>, rest: seq<byte>, start: BodyLabel, consume: BodyLabel, end: BodyLabel)
    requires BodyPlace(start, consume, end)
    requires HttpReady(c) && c.place == Body(consume) && c.fields.contentLength == |data|
    requires c.pending == Some(Pending(BodySpan, []))
    ensures var d := c.(fields := c.fields.(contentLength := 0), pending := Some(Pending(BodySpan, data)));
      HttpReady(d) && HttpRun(GO_ON, c, data + rest) == HttpRun(GO_ON, d, rest)
  {
    var input := data + rest;
    assert input[..|data|] == data && input[|data|..] == rest && input[0..] == input;
    assert [] + data == data;
    LlhttpWellFormed();
    ConsumeRun(LLHTTP, GO_ON, c, input, |data|);
  }

  lemma BodyFull(c: Config, rest: seq<byte>, start: BodyLabel, consume: BodyLabel, end: BodyLabel)
    requires BodyPlace(start, consume, end)
    requires HttpReady(c) && c.place == Body(consume) && c.fields.contentLength == 0
    ensures var d := c.(place := Body(end));
      HttpReady(d) && HttpRun(GO_ON, c, rest) == HttpRun(GO_ON, d, rest)
  {
    Slide(GO_ON, c, rest, c.(place := Body(end)));
  }

  /** A body of exactly contentLength octets. */
  lemma BodyTaken(c: Config, data: seq<byte>, rest: seq<byte>, start: BodyLabel, consume: BodyLabel, end: BodyLabel)
    requires BodyPlace(start, consume, end)
    requires HttpReady(c) && c.place == Body(start) && c.fields.contentLength == |data| > 0
    ensures var d := c.(place := Body(end), fields := c.fields.(contentLength := 0),
                        pending := Some(Pending(BodySpan, data)));
      HttpReady(d) && HttpRun(GO_ON, c, data + rest) == HttpRun(GO_ON, d, rest)
  {
    BodyOpened(c, data + rest, start, consume, end);
    var d := c.(place := Body(consume), pending := Some(Pending(BodySpan, [])));
    BodyConsumed(d, data, rest, start, consume, end);
    BodyFull(d.(fields := c.fields.(contentLength := 0), pending := Some(Pending(BodySpan, data))), rest,
             start, consume, end);
  }

  /** A chunk's octets and the CRLF behind them. */
  lemma ChunkData(c: Config, data: seq<byte>, rest: seq<byte>)
    requires HttpReady(c) && c.place == Body(IsEqualContentLength) && c.fields.contentLength == |data| > 0
    ensures var f := c.fields.(contentLength := 0);
      var d := c.(place := Body(UpdateContentLength), fields := f,
                  out := c.out + [Span(BodySpan, data)] + [Marked(ChunkComplete, f)]);
      HttpReady(d) && HttpRun(GO_ON, c, data + CRLF + rest) == HttpRun(GO_ON, d, rest)
  {
    assert data + CRLF + rest == data + (CRLF + rest);
    var s := c.(place := Body(SpanStartBody));
    assert c.pending.None?;
    Slide(GO_ON, c, data + (CRLF + rest), s);
    BodyTaken(s, data, CRLF + rest, SpanStartBody, ConsumeContentLength, SpanEndBody);
    ChunkDataEnd(s.(place := Body(SpanEndBody), fields := c.fields.(contentLength := 0),
                    pending := Some(Pending(BodySpan, data))), data, rest);
  }

  lemma ChunkDataEnd(c: Config, data: seq<byte>, rest: seq<byte>)
    requires HttpReady(c) && c.place == Body(SpanEndBody) && c.pending == Some(Pending(BodySpan, data))
    ensures var d := c.(place := Body(UpdateContentLength), pending := None,
                        out := c.out + [Span(BodySpan, data)] + [Marked(ChunkComplete, c.fields)]);
      HttpReady(d) && HttpRun(GO_ON, c, CRLF + rest) == HttpRun(GO_ON, d, rest)
  {
    var d := Close(c, BodySpan, Body(ChunkDataAlmostDone));
    Slide(GO_ON, c, CRLF + rest, d);
    ChunkLineEnd(d, rest);
    var e := d.(place := Body(OnChunkComplete));
    Slide(GO_ON, e, rest, e.(place := Body(UpdateContentLength), out := e.out + [Marked(ChunkComplete, e.fields)]));
  }

  lemma ChunkLineEnd(c: Config, rest: seq<byte>)
    requires HttpReady(c) && c.place == Body(ChunkDataAlmostDone)
    ensures var d := c.(place := Body(OnChunkComplete));
      HttpReady(d) && HttpRun(GO_ON, c, CRLF + rest) == HttpRun(GO_ON, d, rest)
  {
    assert (CRLF + rest)[1..] == [LF] + rest && ([LF] + rest)[1..] == rest;
    assert c.pending.None?;
    Take(GO_ON, c, CRLF + rest, c.(place := Body(ChunkDataAlmostDoneSkip)));
    Take(GO_ON, c.(place := Body(ChunkDataAlmostDoneSkip)), [LF] + rest, c.(place := Body(OnChunkComplete)));
  }

  // ---------------------------------------------------------------- the end of a message

  /** On to the next message, with flags and finish reset. */
  function NextMessage(c: Config): Config {
    c.(place := Begin(Start), fields := c.fields.(flags := 0, finish := 0),
       out := c.out + [Marked(MessageComplete, c.fields)])
  }

  /** Stopped behind an upgrade. */
  function Upgrading(c: Config): Config {
    c.(place := Msg(AfterMessageComplete), out := c.out + [Marked(MessageComplete, c.fields)])
  }

  /** The message whose end `c` stands at is complete: the parser stops for an upgrade, or is ready for the next one. */
  ghost predicate Finishes(o: Outcome, c: Config, rest: seq<byte>) {
    if c.fields.upgrade == 1 then o == Stopped(HPE_PAUSED_UPGRADE, PauseOnConnectUpgrade, Upgrading(c), rest)
    else HttpReady(NextMessage(c)) && o == HttpRun(GO_ON, NextMessage(c), rest)
  }

  lemma PausesHere(c: Config, rest: seq<byte>)
    requires HttpReady(c) && c.place == Msg(Pause1)
    ensures HttpRun(GO_ON, c, rest) ==
      Stopped(HPE_PAUSED_UPGRADE, PauseOnConnectUpgrade, c.(place := Msg(AfterMessageComplete)), rest)
  {
    HttpOn(GO_ON, c, rest);
  }

  /** The end of a message behind a body. */
  lemma MessageEnd(c: Config, rest: seq<byte>)
    requires HttpReady(c) && c.place == Msg(OnMessageComplete2)
    ensures Finishes(HttpRun(GO_ON, c, rest), c, rest)
  {
    var d := c.(place := Msg(IsEqualUpgrade), out := c.out + [Marked(MessageComplete, c.fields)]);
    assert c.pending.None?;
    Slide(GO_ON, c, rest, d);
    MessageTold(c, d, rest);
  }

  lemma UpgradeSeen(c: Config, rest: seq<byte>)
    requires HttpReady(c) && c.place == Msg(IsEqualUpgrade)
    ensures var d := c.(place := if c.fields.upgrade == 1 then Msg(Pause1) else Msg(AfterMessageComplete));
      HttpReady(d) && HttpRun(GO_ON, c, rest) == HttpRun(GO_ON, d, rest)
  {
    Slide(GO_ON, c, rest, c.(place := if c.fields.upgrade == 1 then Msg(Pause1) else Msg(AfterMessageComplete)));
  }

  lemma MessageOver(c: Config, rest: seq<byte>)
    requires HttpReady(c) && c.place == Msg(AfterMessageComplete)
    ensures var d := c.(place := Begin(Start), fields := c.fields.(flags := 0, finish := 0));
      HttpReady(d) && HttpRun(GO_ON, c, rest) == HttpRun(GO_ON, d, rest)
  {
    Slide(GO_ON, c, rest, c.(place := Begin(Start), fields := c.fields.(flags := 0, finish := 0)));
  }

  lemma MessageTold(c: Config, d: Config, rest: seq<byte>)
    requires HttpReady(c) && c.place == Msg(OnMessageComplete2) && HttpReady(d)
    requires d == c.(place := Msg(IsEqualUpgrade), out := c.out + [Marked(MessageComplete, c.fields)])
    ensures Finishes(HttpRun(GO_ON, d, rest), c, rest)
  {
    hide HttpRun, HttpReady;
    UpgradeSeen(d, rest);
    if c.fields.upgrade == 1 {
      PausesHere(d.(place := Msg(Pause1)), rest);
    } else {
      MessageOver(d.(place := Msg(AfterMessageComplete)), rest);
    }
  }

  /** Where whatever octet follows a CR is taken for the LF. */
  predicate IsLoose(l: Label) {
    || l == Line(ResLineAlmostDone) || l == Field(HeadersAlmostDone) || l == Value(HeaderValueDiscardWsAlmostDone)
    || l == Body(ChunkSizeAlmostDone) || l == Body(ChunkDataAlmostDone) || l == Body(ChunkDataAlmostDoneSkip)
  }

  lemma LooseTaken(r: Reply, c: Config, x: byte, tail: seq<byte>, next: Label)
    requires HttpReady(c) && IsLoose(c.place) && Dispatch(c.place, x) == Advance(next)
    ensures var d := c.(place := next);
      HttpReady(d) && HttpRun(r, c, [x] + tail) == HttpRun(r, d, tail)
  {
    hide Dispatch;
    assert c.pending.None? && ([x] + tail)[1..] == tail;
    Take(r, c, [x] + tail, c.(place := next));
  }

  /** It need not be one: the run goes on as it would behind a LF. */
  lemma AnyOctet(r: Reply, c: Config, x: byte, tail: seq<byte>) returns (d: Config)
    requires HttpReady(c) && IsLoose(c.place)
    ensures HttpReady(d) && HttpRun(r, c, [x] + tail) == HttpRun(r, d, tail) == HttpRun(r, c, [LF] + tail)
  {
    hide HttpRun, HttpReady;
    LooseEdge(c.place, x);
    d := c.(place := Dispatch(c.place, LF).next);
    LooseTaken(r, c, x, tail, d.place);
    LooseTaken(r, c, LF, tail, d.place);
  }

  lemma LooseEdge(l: Label, x: byte)
    requires IsLoose(l)
    ensures Dispatch(l, x) == Dispatch(l, LF) && Dispatch(l, x).Advance?
  {
  }

  /** The end of a line as it is taken where a header section or an empty value ends: a LF, or a CR and any octet. */
  predicate IsEnd(e: seq<byte>) {
    e == [LF] || (|e| == 2 && e[0] == CR)
  }

  /** The empty line that ends a header section. */
  lemma HeadersEnd(c: Config, e: seq<byte>, rest: seq<byte>)
    requires HttpReady(c) && c.place == Field(HeaderFieldStart) && IsEnd(e)
    ensures var d := c.(place := Msg(TestFlags));
      HttpReady(d) && HttpRun(GO_ON, c, e + rest) == HttpRun(GO_ON, d, rest)
  {
    hide HttpRun, HttpReady;
    var last := [e[|e| - 1]] + rest;
    if e == [LF] {
      assert e + rest == last;
    } else {
      assert e + rest == [CR] + last;
    }
    EndBegins(c, e + rest, last);
    EndTaken(c.(place := Field(HeadersAlmostDone)), e[|e| - 1], rest);
  }

  lemma EndBegins(c: Config, input: seq<byte>, last: seq<byte>)
    requires HttpReady(c) && c.place == Field(HeaderFieldStart) && |input| > 0
    requires (input[0] == LF && last == input) || (input[0] == CR && last == input[1..])
    ensures var d := c.(place := Field(HeadersAlmostDone));
      HttpReady(d) && HttpRun(GO_ON, c, input) == HttpRun(GO_ON, d, last)
  {
    assert c.pending.None?;
    if input[0] == CR {
      Take(GO_ON, c, input, c.(place := Field(HeadersAlmostDone)));
    } else {
      Slide(GO_ON, c, input, c.(place := Field(HeadersAlmostDone)));
    }
  }

  lemma EndTaken(c: Config, x: byte, rest: seq<byte>)
    requires HttpReady(c) && c.place == Field(HeadersAlmostDone)
    ensures var d := c.(place := Msg(TestFlags));
      HttpReady(d) && HttpRun(GO_ON, c, [x] + rest) == HttpRun(GO_ON, d, rest)
  {
    assert c.pending.None? && ([x] + rest)[1..] == rest;
    Take(GO_ON, c, [x] + rest, c.(place := Msg(TestFlags)));
  }

  lemma TrailersDone(c: Config, rest: seq<byte>)
    requires HttpReady(c) && c.place == Msg(TestFlags) && c.fields.flags & F_TRAILING == F_TRAILING
    ensures var d := c.(place := Msg(OnMessageComplete2), out := c.out + [Marked(ChunkComplete, c.fields)]);
      HttpReady(d) && HttpRun(GO_ON, c, rest) == HttpRun(GO_ON, d, rest)
  {
    Slide(GO_ON, c, rest, c.(place := Body(OnChunkComplete1)));
    Slide(GO_ON, c.(place := Body(OnChunkComplete1)), rest,
          c.(place := Msg(OnMessageComplete2), out := c.out + [Marked(ChunkComplete, c.fields)]));
  }

  /** After the header of a chunk of size zero the parser reads a trailer. */
  lemma ZeroChunk(c: Config, rest: seq<byte>)
    requires HttpReady(c) && c.place == Body(IsEqualContentLength) && c.fields.contentLength == 0
    ensures var d := c.(place := Field(HeaderFieldStart), fields := Trailing(c.fields));
      HttpReady(d) && HttpRun(GO_ON, c, rest) == HttpRun(GO_ON, d, rest)
  {
    assert c.pending.None?;
    Slide(GO_ON, c, rest, c.(place := Field(HeaderFieldStart), fields := Trailing(c.fields)));
  }

  function Trailing(f: Fields): Fields {
    f.(flags := f.flags | F_TRAILING)
  }

  lemma TrailingBit(flags: bv8)
    ensures (flags | F_TRAILING) & F_TRAILING == F_TRAILING
  {
  }

  // ---------------------------------------------------------------- any number of chunks

  /** What the caller hears of a chunk. */
  function ChunkEvents(f: Fields, data: seq<byte>): seq<Event> {
    [Marked(ChunkHeader, f.(contentLength := |data|)),
     Span(BodySpan, data),
     Marked(ChunkComplete, f.(contentLength := 0))]
  }

  function ChunksEvents(f: Fields, chunks: seq<Chunk>): seq<Event> {
    if |chunks| == 0 then [] else ChunkEvents(f, chunks[0].data) + ChunksEvents(f, chunks[1..])
  }

  function ChunksText(chunks: seq<Chunk>): seq<byte> {
    if |chunks| == 0 then []
    else chunks[0].size + chunks[0].ext + CRLF + chunks[0].data + CRLF + ChunksText(chunks[1..])
  }

  predicate AreChunks(chunks: seq<Chunk>) {
    |chunks| > 0 ==> IsChunk(chunks[0]) && AreChunks(chunks[1..])
  }

  function AfterChunk(c: Config, k: Chunk): Config {
    c.(fields := c.fields.(contentLength := 0), out := c.out + ChunkEvents(c.fields, k.data))
  }

  lemma OneChunk(c: Config, k: Chunk, rest: seq<byte>)
    requires HttpReady(c) && c.place == Body(UpdateContentLength) && IsChunk(k)
    ensures var d := AfterChunk(c, k);
      HttpReady(d)
      && HttpRun(GO_ON, c, k.size + k.ext + CRLF + k.data + CRLF + rest) == HttpRun(GO_ON, d, rest)
  {
    var tail := k.data + CRLF + rest;
    assert k.size + k.ext + CRLF + k.data + CRLF + rest == k.size + k.ext + CRLF + tail;
    ChunkHead(c, k.size, |k.data|, k.ext, tail);
    var f := c.fields.(contentLength := |k.data|);
    var d := c.(place := Body(IsEqualContentLength), fields := f, out := c.out + [Marked(ChunkHeader, f)]);
    ChunkData(d, k.data, rest);
    assert c.out + ChunkEvents(c.fields, k.data) ==
      d.out + [Span(BodySpan, k.data)] + [Marked(ChunkComplete, f.(contentLength := 0))];
  }

  /** The parser behind some chunks. */
  function AfterChunks(c: Config, chunks: seq<Chunk>): Config {
    c.(fields := if |chunks| == 0 then c.fields else c.fields.(contentLength := 0),
       out := c.out + ChunksEvents(c.fields, chunks))
  }

  lemma ChunksHead(chunks: seq<Chunk>, rest: seq<byte>)
    requires |chunks| > 0
    ensures var k := chunks[0];
      ChunksText(chunks) + rest == k.size + k.ext + CRLF + k.data + CRLF + (ChunksText(chunks[1..]) + rest)
  {
  }

  /** The events of chunks do not depend on what the counter held before. */
  lemma {:induction false} SameEvents(f: Fields, g: Fields, chunks: seq<Chunk>)
    requires g == f.(contentLength := g.contentLength)
    ensures ChunksEvents(f, chunks) == ChunksEvents(g, chunks)
    decreases |chunks|
  {
    if |chunks| > 0 {
      SameEvents(f, g, chunks[1..]);
    }
  }

  lemma AfterChunksHead(c: Config, chunks: seq<Chunk>)
    requires |chunks| > 0
    ensures AfterChunks(c, chunks) == AfterChunks(AfterChunk(c, chunks[0]), chunks[1..])
  {
    var d := AfterChunk(c, chunks[0]);
    SameEvents(c.fields, d.fields, chunks[1..]);
    Regroup(c.out, ChunkEvents(c.fields, chunks[0].data), ChunksEvents(c.fields, chunks[1..]));
  }

  /** Any number of chunks, from the start of one to the start of the next. */
  lemma {:induction false} ChunksTaken(c: Config, chunks: seq<Chunk>, rest: seq<byte>)
    requires HttpReady(c) && c.place == Body(UpdateContentLength) && AreChunks(chunks)
    ensures var d := AfterChunks(c, chunks);
      HttpReady(d) && HttpRun(GO_ON, c, ChunksText(chunks) + rest) == HttpRun(GO_ON, d, rest)
    decreases |chunks|
  {
    if |chunks| == 0 {
      assert [] + rest == rest && c.out + [] == c.out;
    } else {
      ChunksHead(chunks, rest);
      AfterChunksHead(c, chunks);
      OneChunk(c, chunks[0], ChunksText(chunks[1..]) + rest);
      ChunksTaken(AfterChunk(c, chunks[0]), chunks[1..], rest);
    }
  }

  // ---------------------------------------------------------------- what is heard

  function OctetsOf(e: Event): seq<byte> {
    if e.Span? && e.kind.BodySpan? then e.octets else []
  }

  /** The octets handed to on_body, end to end. */
  function BodyOctets(events: seq<Event>): seq<byte> {
    if |events| == 0 then [] else OctetsOf(events[0]) + BodyOctets(events[1..])
  }

  function TimeOf(mark: Mark, e: Event): nat {
    if e.Marked? && e.mark == mark then 1 else 0
  }

  /** How often a callback without octets was made. */
  function Times(mark: Mark, events: seq<Event>): nat {
    if |events| == 0 then 0 else TimeOf(mark, events[0]) + Times(mark, events[1..])
  }

  function DataOf(chunks: seq<Chunk>): seq<byte> {
    if |chunks| == 0 then [] else chunks[0].data + DataOf(chunks[1..])
  }

  lemma OneEvent(mark: Mark, e: Event)
    ensures BodyOctets([e]) == OctetsOf(e) && Times(mark, [e]) == TimeOf(mark, e)
  {
    assert [e][1..] == [];
  }

  /** What is heard of two lists of events is what is heard of one and then of the other. */
  lemma {:induction false} HeardMore(mark: Mark, a: seq<Event>, b: seq<Event>)
    ensures BodyOctets(a + b) == BodyOctets(a) + BodyOctets(b) && Times(mark, a + b) == Times(mark, a) + Times(mark, b)
    decreases |a|
  {
    if |a| == 0 {
      assert a + b == b;
    } else {
      assert (a + b)[1..] == a[1..] + b;
      HeardMore(mark, a[1..], b);
    }
  }

  lemma ChunkHeard(mark: Mark, f: Fields, data: seq<byte>)
    ensures var e := ChunkEvents(f, data);
      BodyOctets(e) == data && Times(mark, e) == if mark.ChunkHeader? || mark.ChunkComplete? then 1 else 0
  {
    var e := ChunkEvents(f, data);
    assert e == [e[0]] + ([e[1]] + [e[2]]);
    OneEvent(mark, e[0]);
    OneEvent(mark, e[1]);
    OneEvent(mark, e[2]);
    HeardMore(mark, [e[1]], [e[2]]);
    HeardMore(mark, [e[0]], [e[1]] + [e[2]]);
  }

  lemma {:induction false} ChunksHeard(mark: Mark, f: Fields, chunks: seq<Chunk>)
    ensures var e := ChunksEvents(f, chunks);
      && BodyOctets(e) == DataOf(chunks)
      && Times(mark, e) == if mark.ChunkHeader? || mark.ChunkComplete? then |chunks| else 0
    decreases |chunks|
  {
    if |chunks| > 0 {
      ChunkHeard(mark, f, chunks[0].data);
      ChunksHeard(mark, f, chunks[1..]);
      HeardMore(mark, ChunkEvents(f, chunks[0].data), ChunksEvents(f, chunks[1..]));
    }
  }

  // ---------------------------------------------------------------- a body of known size

  /** The parser reads a body behind the headers, whether the message is an upgrade or not. */
  predicate ReadsBody(f: Fields) {
    f.flags & F_SKIPBODY == 0 && (f.upgrade == 0 || f.verb != HTTP_CONNECT)
  }

  /** A body with a Content-Length of N > 0 is the next N octets, no more and no less. */
  lemma SizedBody(c: Config, body: seq<byte>, rest: seq<byte>)
    requires HttpReady(c) && c.place == Msg(AfterHeadersComplete) && ReadsBody(c.fields)
    requires c.fields.flags & F_CHUNKED == 0
    requires c.fields.flags & F_CONTENT_LENGTH != 0 && c.fields.contentLength == |body| > 0
    ensures var d := c.(place := Msg(OnMessageComplete2), fields := c.fields.(contentLength := 0),
                        out := c.out + [Span(BodySpan, body)]);
      Finishes(HttpRun(GO_ON, c, body + rest), d, rest)
  {
    assert c.pending.None?;
    var s := c.(place := Body(SpanStartBody1));
    Slide(GO_ON, c, body + rest, s);
    BodyTaken(s, body, rest, SpanStartBody1, ConsumeContentLength1, SpanEndBody1);
    SizedEnd(s.(place := Body(SpanEndBody1), fields := c.fields.(contentLength := 0),
                pending := Some(Pending(BodySpan, body))), body, rest);
  }

  lemma SizedEnd(c: Config, body: seq<byte>, rest: seq<byte>)
    requires HttpReady(c) && c.place == Body(SpanEndBody1) && c.pending == Some(Pending(BodySpan, body))
    ensures var d := c.(place := Msg(OnMessageComplete2), pending := None, out := c.out + [Span(BodySpan, body)]);
      Finishes(HttpRun(GO_ON, c, rest), d, rest)
  {
    var d := Close(c, BodySpan, Msg(OnMessageComplete2));
    Slide(GO_ON, c, rest, d);
    MessageEnd(d, rest);
  }
}
