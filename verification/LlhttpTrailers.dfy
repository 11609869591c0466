/** Chunked bodies as a whole: the chunks, the last chunk, and the trailer behind it. */
module LlhttpTrailers {
  import opened Bytes
  import opened LlhttpTypes
  import opened LlhttpTables
  import opened Llparse
  import opened LlhttpProgram
  import opened LlhttpNumbers
  import opened LlhttpChunks
  import opened LlhttpNames
  import opened LlhttpValues
  import opened LlhttpHeaders

  /** The fields behind the size line of the last chunk. */
  function AtTrailer(f: Fields): Fields {
    Trailing(f.(contentLength := 0))
  }

  lemma LastHead(c: Config, last: Chunk, rest: seq<byte>)
    requires HttpReady(c) && c.place == Body(UpdateContentLength)
    requires IsSize(last.size, 0) && IsExtension(last.ext)
    ensures var d := c.(place := Field(HeaderFieldStart), fields := AtTrailer(c.fields),
                        out := c.out + [Marked(ChunkHeader, c.fields.(contentLength := 0))]);
      HttpReady(d) && HttpRun(GO_ON, c, last.size + last.ext + CRLF + rest) == HttpRun(GO_ON, d, rest)
  {
    hide HttpRun, HttpReady;
    ChunkHead(c, last.size, 0, last.ext, rest);
    var f := c.fields.(contentLength := 0);
    ZeroChunk(c.(place := Body(IsEqualContentLength), fields := f, out := c.out + [Marked(ChunkHeader, f)]), rest);
  }

  lemma StillTrailing(f: Fields, hs: seq<Header>)
    requires f.flags & F_TRAILING != 0
    ensures SectionFields(f, hs).flags & F_TRAILING == F_TRAILING
  {
    SectionFlags(f, hs, F_TRAILING);
    TopBit(SectionFields(f, hs).flags);
  }

  lemma TopBit(flags: bv8)
    ensures flags & F_TRAILING != 0 <==> flags & F_TRAILING == F_TRAILING
  {
  }

  lemma TrailerBit(f: Fields)
    ensures AtTrailer(f).flags & F_TRAILING != 0
  {
    TrailingBit(f.flags);
  }

  /** At the end of the message behind a trailer; `c` is the parser behind the trailer's last header. */
  function Trailed(c: Config): Config {
    c.(place := Msg(OnMessageComplete2), out := c.out + [Marked(ChunkComplete, c.fields)])
  }

  /** A trailer: its headers are reported behind the size of the last chunk, and their effects outlive the message. */
  lemma TrailerRead(c: Config, trailers: seq<Header>, rest: seq<byte>)
    requires HttpReady(c) && c.place == Field(HeaderFieldStart)
    requires c.fields.flags & F_TRAILING != 0 && AreLines(trailers) && SectionAccepted(c.fields, trailers)
    ensures var e := AfterSection(c, trailers);
      Finishes(HttpRun(GO_ON, c, SectionText(trailers) + (CRLF + rest)), Trailed(e), rest)
  {
    hide HttpRun, HttpReady;
    assert (CRLF + rest)[0] == CR;
    SectionRead(GO_ON, c, trailers, CRLF + rest);
    var e := AfterSection(c, trailers);
    StillTrailing(c.fields, trailers);
    HeadersEnd(e, CRLF, rest);
    TrailersDone(e.(place := Msg(TestFlags)), rest);
    MessageEnd(Trailed(e), rest);
  }

  // ---------------------------------------------------------------- whole chunked bodies

  /** The text of a chunked body: chunks, the last chunk, and a trailer. */
  function ChunkedText(chunks: seq<Chunk>, last: Chunk, trailers: seq<Header>, rest: seq<byte>): seq<byte> {
    ChunksText(chunks) + (last.size + last.ext + CRLF + (SectionText(trailers) + (CRLF + rest)))
  }

  predicate IsChunkedBody(f: Fields, chunks: seq<Chunk>, last: Chunk, trailers: seq<Header>) {
    && AreChunks(chunks) && IsSize(last.size, 0) && IsExtension(last.ext)
    && AreLines(trailers) && SectionAccepted(AtTrailer(f), trailers)
  }

  /** The parser behind the size line of the last chunk. */
  function BehindChunks(c: Config, chunks: seq<Chunk>): Config {
    c.(place := Field(HeaderFieldStart), fields := AtTrailer(c.fields),
       out := c.out + ChunksEvents(c.fields, chunks) + [Marked(ChunkHeader, c.fields.(contentLength := 0))])
  }

  /** At the end of a chunked message. */
  function ChunkedEnd(c: Config, chunks: seq<Chunk>, trailers: seq<Header>): Config {
    Trailed(AfterSection(BehindChunks(c, chunks), trailers))
  }

  lemma ChunkedRead(c: Config, chunks: seq<Chunk>, last: Chunk, trailers: seq<Header>, rest: seq<byte>)
    requires HttpReady(c) && c.place == Body(UpdateContentLength) && IsChunkedBody(c.fields, chunks, last, trailers)
    ensures Finishes(HttpRun(GO_ON, c, ChunkedText(chunks, last, trailers, rest)),
                     ChunkedEnd(c, chunks, trailers), rest)
  {
    hide HttpRun, HttpReady;
    var tail := SectionText(trailers) + (CRLF + rest);
    ChunksTaken(c, chunks, last.size + last.ext + CRLF + tail);
    LastHead(AfterChunks(c, chunks), last, tail);
    TrailerBit(c.fields);
    TrailerRead(BehindChunks(c, chunks), trailers, rest);
  }

  lemma {:induction false} LinesHeard(mark: Mark, n: nat, folds: seq<seq<byte>>)
    ensures BodyOctets(LinesEvents(n, folds)) == [] && Times(mark, LinesEvents(n, folds)) == 0
    decreases |folds|
  {
    if |folds| > 0 {
      var told := Span(ValueSpan, folds[0] + ExtraOf(n, folds[0]));
      OneEvent(mark, told);
      LinesHeard(mark, PartState(n, folds[0]), folds[1..]);
      HeardMore(mark, [told], LinesEvents(PartState(n, folds[0]), folds[1..]));
    }
  }

  lemma HeaderHeard(mark: Mark, h: Header)
    ensures BodyOctets(HeaderEvents(h)) == [] && Times(mark, HeaderEvents(h)) == 0
  {
    OneEvent(mark, Span(FieldSpan, h.name));
    OneEvent(mark, Span(ValueSpan, []));
    LinesHeard(mark, StateOf(h.name), [h.value] + h.folds);
    HeardMore(mark, [Span(FieldSpan, h.name)], ValueEvents(StateOf(h.name), h.value, h.folds));
  }

  lemma {:induction false} SectionHeard(mark: Mark, hs: seq<Header>)
    ensures BodyOctets(SectionEvents(hs)) == [] && Times(mark, SectionEvents(hs)) == 0
    decreases |hs|
  {
    if |hs| > 0 {
      HeaderHeard(mark, hs[0]);
      SectionHeard(mark, hs[1..]);
      HeardMore(mark, HeaderEvents(hs[0]), SectionEvents(hs[1..]));
    }
  }

  lemma MarkHeard(mark: Mark, events: seq<Event>, m: Mark, f: Fields)
    ensures BodyOctets(events + [Marked(m, f)]) == BodyOctets(events)
    ensures Times(mark, events + [Marked(m, f)]) == Times(mark, events) + if m == mark then 1 else 0
  {
    OneEvent(mark, Marked(m, f));
    HeardMore(mark, events, [Marked(m, f)]);
  }

  /** What is heard of a chunked message up to its end. */
  lemma ChunkedHeard(mark: Mark, c: Config, chunks: seq<Chunk>, trailers: seq<Header>)
    ensures var out := ChunkedEnd(c, chunks, trailers).out;
      && BodyOctets(out) == BodyOctets(c.out) + DataOf(chunks)
      && Times(mark, out) == Times(mark, c.out) + if mark.ChunkHeader? || mark.ChunkComplete? then |chunks| + 1 else 0
  {
    var b := BehindChunks(c, chunks);
    var e := AfterSection(b, trailers);
    ChunksHeard(mark, c.fields, chunks);
    HeardMore(mark, c.out, ChunksEvents(c.fields, chunks));
    MarkHeard(mark, c.out + ChunksEvents(c.fields, chunks), ChunkHeader, c.fields.(contentLength := 0));
    SectionHeard(mark, trailers);
    HeardMore(mark, b.out, SectionEvents(trailers));
    MarkHeard(mark, e.out, ChunkComplete, e.fields);
  }

  lemma ChunksBegin(c: Config, input: seq<byte>)
    requires HttpReady(c) && c.place == Msg(AfterHeadersComplete) && ReadsBody(c.fields) && c.fields.flags & F_CHUNKED != 0
    ensures var d := c.(place := Body(UpdateContentLength));
      HttpReady(d) && HttpRun(GO_ON, c, input) == HttpRun(GO_ON, d, input)
  {
    assert c.pending.None?;
    Slide(GO_ON, c, input, c.(place := Body(UpdateContentLength)));
  }

  /** Chunked decoding inverts chunked encoding: after the headers of a chunked message any list of chunks is heard as
      itself, whatever the spelling of the sizes, the extensions, the trailer, and the counter left behind by earlier
      messages; and the message is complete behind the trailer. What a Content-Length in the trailer puts into the
      counter stays in it. */
  lemma ChunkedBody(c: Config, chunks: seq<Chunk>, last: Chunk, trailers: seq<Header>, rest: seq<byte>)
    requires HttpReady(c) && c.place == Msg(AfterHeadersComplete) && ReadsBody(c.fields)
    requires c.fields.flags & F_CHUNKED != 0 && IsChunkedBody(c.fields, chunks, last, trailers)
    ensures var e := ChunkedEnd(c, chunks, trailers); var done := e.out + [Marked(MessageComplete, e.fields)];
      && Finishes(HttpRun(GO_ON, c, ChunkedText(chunks, last, trailers, rest)), e, rest)
      && e.fields.contentLength == SectionFields(AtTrailer(c.fields), trailers).contentLength
      && BodyOctets(done) == BodyOctets(c.out) + DataOf(chunks)
      && Times(ChunkHeader, done) == Times(ChunkHeader, c.out) + |chunks| + 1
      && Times(ChunkComplete, done) == Times(ChunkComplete, c.out) + |chunks| + 1
      && Times(MessageComplete, done) == Times(MessageComplete, c.out) + 1
  {
    hide HttpRun, HttpReady;
    var d := c.(place := Body(UpdateContentLength));
    ChunksBegin(c, ChunkedText(chunks, last, trailers, rest));
    ChunkedRead(d, chunks, last, trailers, rest);
    var e := ChunkedEnd(c, chunks, trailers);
    ChunkedTimes(ChunkHeader, c, chunks, trailers);
    ChunkedTimes(ChunkComplete, c, chunks, trailers);
    ChunkedTimes(MessageComplete, c, chunks, trailers);
  }

  lemma ChunkedTimes(mark: Mark, c: Config, chunks: seq<Chunk>, trailers: seq<Header>)
    ensures var e := ChunkedEnd(c, chunks, trailers); var done := e.out + [Marked(MessageComplete, e.fields)];
      && BodyOctets(done) == BodyOctets(c.out) + DataOf(chunks)
      && Times(mark, done) == Times(mark, c.out)
         + (if mark.ChunkHeader? || mark.ChunkComplete? then |chunks| + 1 else if mark.MessageComplete? then 1 else 0)
  {
    var e := ChunkedEnd(c, chunks, trailers);
    ChunkedHeard(mark, c, chunks, trailers);
    MarkHeard(mark, e.out, MessageComplete, e.fields);
  }

  // ---------------------------------------------------------------- a length in a trailer

  // "Content-Length: 1"
  const ONE_LENGTH: Header := OneLine(CONTENT_LENGTH, [SP], [0x31])

  lemma OneDigitLength()
    ensures IsLength(0, [0x31]) && Length(0, [0x31]) == 1
  {
    assert Digits([0x31]) == 1 && [0x31][..1] == [0x31 as byte];
    assert [0x31 as byte][1..] == [];
  }

  lemma WordItself(word: seq<byte>)
    requires IsWordText(word)
    ensures IsWord(word, word) && IsName(word)
  {
    forall j {:trigger word[j]} | 0 <= j < |word| ensures AsWord(word[j]) == word[j] && IsFieldOctet(word[j]) {
      assert IsWordOctet(word[j]);
    }
  }

  lemma LengthState()
    ensures IsWordText(CONTENT_LENGTH) && StateOf(CONTENT_LENGTH) == 2
  {
    assert IsWordText(CONTENT_LENGTH);
    WordItself(CONTENT_LENGTH);
    assert AsWord(CONTENT_LENGTH[3]) != CONNECTION[3];
    assert |CONTENT_LENGTH| < |PROXY_CONNECTION|;
  }

  lemma LengthName()
    ensures IsLine(ONE_LENGTH) && IsName(CONTENT_LENGTH) && StateOf(CONTENT_LENGTH) == 2
  {
    LengthState();
    WordItself(CONTENT_LENGTH);
  }

  /** For instance this trailer leaves a one behind. */
  lemma LeftBehind(f: Fields)
    requires f.flags & F_CONTENT_LENGTH == 0
    ensures AreLines([ONE_LENGTH]) && SectionAccepted(AtTrailer(f), [ONE_LENGTH])
    ensures SectionFields(AtTrailer(f), [ONE_LENGTH]).contentLength == 1
  {
    hide HttpRun, HttpReady;
    LengthName();
    OneDigitLength();
    NoLengthBit(f.flags);
    assert [ONE_LENGTH][1..] == [];
  }

  lemma NoLengthBit(flags: bv8)
    requires flags & F_CONTENT_LENGTH == 0
    ensures (flags | F_TRAILING) & F_CONTENT_LENGTH == 0
  {
  }
}
