/** Whole messages: a request with whatever body it announces, read from wherever the counter stands. */
module LlhttpMessage {
  import opened Bytes
  import opened LlhttpTypes
  import opened LlhttpTables
  import opened Llparse
  import opened LlhttpProgram
  import opened LlhttpChunks
  import opened LlhttpHeaders
  import opened LlhttpTrailers
  import opened LlhttpRequest

  datatype Payload =
    | NoPayload
    | Sized(octets: seq<byte>)
    | Chunked(chunks: seq<Chunk>, last: Chunk, trailers: seq<Header>)

  datatype Message = Message(head: Request, payload: Payload)

  function PayloadText(p: Payload, tail: seq<byte>): seq<byte> {
    match p
    case NoPayload => tail
    case Sized(octets) => octets + tail
    case Chunked(chunks, last, trailers) => ChunkedText(chunks, last, trailers, tail)
  }

  /** A message, and what follows it. */
  function MessageText(m: Message, tail: seq<byte>): seq<byte> {
    RequestText(m.head, PayloadText(m.payload, tail))
  }

  function BodyOf(m: Message): seq<byte> {
    match m.payload
    case NoPayload => []
    case Sized(octets) => octets
    case Chunked(chunks, _, _) => DataOf(chunks)
  }

  function TrailersOf(m: Message): seq<Header> {
    if m.payload.Chunked? then m.payload.trailers else []
  }

  // ---------------------------------------------------------------- acceptance, by the counter

  /** The fields of a new parser but for the counter. */
  function Fresh(n: nat): Fields {
    Fields(0, n, 0, 0, 0, 0, 0, 0, 0, 0, 0)
  }

  /** The counter behind the headers of a request that finds it at `n`. */
  function HeadCounter(n: nat, q: Request): nat
    requires IsRequest(q)
  {
    HeadFields(Fresh(n), q).contentLength
  }

  /** The parser accepts a message when it finds the counter at `n`: the head is accepted, and the body is the one that
      the headers announce. A CONNECT has none, whatever they announce. */
  ghost predicate MessageAccepted(n: nat, m: Message) {
    var q := m.head;
    && HeadAccepted(Fresh(n), q)
    && match m.payload
       case NoPayload => q.verb == HTTP_CONNECT || NoBody(Fresh(n), q)
       case Sized(octets) =>
         q.verb != HTTP_CONNECT && Sets(q.headers, F_CONTENT_LENGTH) && HeadCounter(n, q) == |octets| > 0
       case Chunked(chunks, last, trailers) =>
         && q.verb != HTTP_CONNECT && Sets(q.headers, F_CHUNKED)
         && IsChunkedBody(HeadFields(Fresh(n), q), chunks, last, trailers)
  }

  /** The parser stops for an upgrade behind the message: the request asks for one and, if it announces no body and is no
      CONNECT, the counter is zero. */
  ghost predicate Pauses(n: nat, m: Message)
    requires IsRequest(m.head)
  {
    WantsUpgrade(m.head) && (m.payload.NoPayload? ==> m.head.verb == HTTP_CONNECT || HeadCounter(n, m.head) == 0)
  }

  /** What the message leaves in the counter. */
  function CounterAfter(n: nat, m: Message): nat
    requires IsRequest(m.head)
  {
    match m.payload
    case NoPayload => HeadCounter(n, m.head)
    case Sized(_) => 0
    case Chunked(_, _, trailers) => SectionFields(AtTrailer(HeadFields(Fresh(n), m.head)), trailers).contentLength
  }

  lemma HeadAlike(f: Fields, q: Request)
    requires IsRequest(q) && f.flags == 0
    ensures HeadAccepted(f, q) <==> HeadAccepted(Fresh(f.contentLength), q)
    ensures HeadFields(f, q).contentLength == HeadCounter(f.contentLength, q)
    ensures HeadFields(f, q).flags == HeadFields(Fresh(f.contentLength), q).flags
  {
    SectionAlike(LineFields(f, q), LineFields(Fresh(f.contentLength), q), q.headers);
  }

  // ---------------------------------------------------------------- what is told of a message

  /** An event that is neither part of the head or a trailer nor the end of a message. */
  predicate Silent(e: Event) {
    match e
    case Span(kind, _) => kind.BodySpan?
    case Marked(mark, _) => !mark.MessageComplete?
  }

  predicate AreSilent(events: seq<Event>) {
    forall i {:trigger events[i]} | 0 <= i < |events| :: Silent(events[i])
  }

  /** The events between the parts of a message, and the fields its end is told with. */
  datatype Telling = Telling(body: seq<Event>, after: seq<Event>, end: Fields)

  /** Behind `c` the message is told as it is: its head, its body, its trailer, its end. */
  ghost predicate Told(c: Config, out: seq<Event>, m: Message, t: Telling) {
    && out == c.out + HeadEvents(c.fields, m.head) + t.body + SectionEvents(TrailersOf(m)) + t.after
              + [Marked(MessageComplete, t.end)]
    && AreSilent(t.body) && AreSilent(t.after)
    && BodyOctets(t.body) == BodyOf(m) && BodyOctets(t.after) == []
    && t.end.verb == m.head.verb && (t.end.upgrade == if WantsUpgrade(m.head) then 1 else 0)
  }

  /** The parser is behind the message: stopped for an upgrade, or ready for the next message. */
  ghost predicate Passed(o: Outcome, n: nat, d: Config, m: Message, tail: seq<byte>)
    requires IsRequest(m.head)
  {
    if Pauses(n, m) then StopsForUpgrade(o, d, tail)
    else Between(d) && d.fields.contentLength == CounterAfter(n, m) && o == HttpRun(GO_ON, d, tail)
  }

  lemma HeaderMark(events: seq<Event>, f: Fields)
    ensures BodyOctets([Marked(HeadersComplete, f)] + events) == BodyOctets(events)
  {
    OneEvent(HeadersComplete, Marked(HeadersComplete, f));
    HeardMore(HeadersComplete, [Marked(HeadersComplete, f)], events);
  }

  /** A message that is complete with its head. */
  lemma PlainTold(c: Config, m: Message) returns (t: Telling)
    requires IsRequest(m.head) && m.payload.NoPayload? && c.fields.flags == 0 && c.fields.typ == HTTP_REQUEST
    ensures var h := Headed(c, m.head); Told(c, h.out + [Marked(MessageComplete, h.fields)], m, t)
  {
    hide HttpRun, HttpReady;
    var h := Headed(c, m.head);
    HeadSays(c.fields, m.head);
    t := Telling([Marked(HeadersComplete, h.fields)], [], h.fields);
    OneEvent(HeadersComplete, Marked(HeadersComplete, h.fields));
    var out := c.out + HeadEvents(c.fields, m.head) + t.body;
    assert out + [] + [] == out;
  }

  lemma PlainRead(c: Config, m: Message, tail: seq<byte>) returns (d: Config, t: Telling)
    requires Between(c) && MessageAccepted(c.fields.contentLength, m) && m.payload.NoPayload?
    ensures Told(c, d.out, m, t)
    ensures Passed(HttpRun(GO_ON, c, MessageText(m, tail)), c.fields.contentLength, d, m, tail)
  {
    hide HttpRun, HttpReady;
    var q, n := m.head, c.fields.contentLength;
    HeadAlike(c.fields, q);
    SectionLeaves(LineFields(c.fields, q), q.headers);
    if q.verb == HTTP_CONNECT {
      ConnectRequest(c, q, tail, []);
      d := Upgrading(Headed(c, q));
      t := PlainTold(c, m);
    } else if Pauses(n, m) {
      UpgradeRequest(c, q, tail);
      d := Upgrading(Headed(c, q));
      t := PlainTold(c, m);
    } else if WantsUpgrade(q) {
      UpgradeMissed(c, q, tail);
      d := NextMessage(Headed(c, q));
      t := PlainTold(c, m);
    } else {
      PlainRequest(c, q, tail);
      d := NextMessage(Headed(c, q));
      t := PlainTold(c, m);
    }
  }

  /** Behind the end of a message with a body. */
  function Behind(e: Config): Config {
    if e.fields.upgrade == 1 then Upgrading(e) else NextMessage(e)
  }

  lemma FinishPasses(o: Outcome, n: nat, e: Config, m: Message, tail: seq<byte>)
    requires IsRequest(m.head) && !m.payload.NoPayload? && Finishes(o, e, tail)
    requires e.fields.typ == HTTP_REQUEST && (e.fields.upgrade == if WantsUpgrade(m.head) then 1 else 0)
    requires e.fields.contentLength == CounterAfter(n, m)
    ensures Passed(o, n, Behind(e), m, tail)
  {
    hide HttpRun, HttpReady;
  }

  lemma SizedTold(c: Config, m: Message, h: Config, e: Config, t: Telling)
    requires IsRequest(m.head) && m.payload.Sized?
    requires h.out == c.out + HeadEvents(c.fields, m.head) + [Marked(HeadersComplete, h.fields)]
    requires h.fields.verb == m.head.verb && (h.fields.upgrade == if WantsUpgrade(m.head) then 1 else 0)
    requires e.out == h.out + [Span(BodySpan, m.payload.octets)]
    requires e.fields == h.fields.(contentLength := 0)
    requires t == Telling([Marked(HeadersComplete, h.fields)] + [Span(BodySpan, m.payload.octets)], [], e.fields)
    ensures Told(c, Behind(e).out, m, t)
  {
    hide HttpRun, HttpReady;
    var span := [Span(BodySpan, m.payload.octets)];
    OneEvent(HeadersComplete, span[0]);
    HeaderMark(span, h.fields);
    var out := c.out + HeadEvents(c.fields, m.head);
    Regroup(out, [Marked(HeadersComplete, h.fields)], span);
    assert out + t.body + [] + [] == out + t.body;
  }

  lemma SizedRead(c: Config, m: Message, tail: seq<byte>) returns (d: Config, t: Telling)
    requires Between(c) && MessageAccepted(c.fields.contentLength, m) && m.payload.Sized?
    ensures Told(c, d.out, m, t)
    ensures Passed(HttpRun(GO_ON, c, MessageText(m, tail)), c.fields.contentLength, d, m, tail)
  {
    hide HttpRun, HttpReady;
    var q := m.head;
    HeadAlike(c.fields, q);
    HeadSays(c.fields, q);
    SizedRequest(c, q, m.payload.octets, tail);
    var h := Headed(c, q);
    var e := h.(place := Msg(OnMessageComplete2), fields := h.fields.(contentLength := 0),
                out := h.out + [Span(BodySpan, m.payload.octets)]);
    d := Behind(e);
    t := Telling([Marked(HeadersComplete, h.fields)] + [Span(BodySpan, m.payload.octets)], [], e.fields);
    SizedTold(c, m, h, e, t);
    FinishPasses(HttpRun(GO_ON, c, MessageText(m, tail)), c.fields.contentLength, e, m, tail);
  }

  lemma {:induction false} ChunksSilent(f: Fields, chunks: seq<Chunk>)
    ensures AreSilent(ChunksEvents(f, chunks))
    decreases |chunks|
  {
    if |chunks| > 0 {
      ChunksSilent(f, chunks[1..]);
    }
  }

  /** The events of a chunked body up to its trailer. */
  function ChunkedTelling(g: Fields, chunks: seq<Chunk>): seq<Event> {
    [Marked(HeadersComplete, g)] + (ChunksEvents(g, chunks) + [Marked(ChunkHeader, g.(contentLength := 0))])
  }

  lemma ChunkedTellingIs(g: Fields, chunks: seq<Chunk>)
    ensures AreSilent(ChunkedTelling(g, chunks)) && BodyOctets(ChunkedTelling(g, chunks)) == DataOf(chunks)
  {
    ChunksSilent(g, chunks);
    ChunksHeard(ChunkHeader, g, chunks);
    MarkHeard(ChunkHeader, ChunksEvents(g, chunks), ChunkHeader, g.(contentLength := 0));
    HeaderMark(ChunksEvents(g, chunks) + [Marked(ChunkHeader, g.(contentLength := 0))], g);
  }

  lemma FourParts(out: seq<Event>, a: seq<Event>, b: seq<Event>, c: seq<Event>)
    ensures out + a + b + c == out + (a + (b + c))
  {
  }

  lemma ChunkedTold(c: Config, m: Message, h: Config) returns (t: Telling)
    requires IsRequest(m.head) && m.payload.Chunked?
    requires h.out == c.out + HeadEvents(c.fields, m.head) + [Marked(HeadersComplete, h.fields)]
    requires h.fields.verb == m.head.verb && (h.fields.upgrade == if WantsUpgrade(m.head) then 1 else 0)
    ensures Told(c, Behind(ChunkedEnd(h, m.payload.chunks, m.payload.trailers)).out, m, t)
  {
    hide HttpRun, HttpReady, SectionEvents, ChunksEvents, HeadEvents, WantsUpgrade, IsRequest;
    var chunks, trailers := m.payload.chunks, m.payload.trailers;
    var e := ChunkedEnd(h, chunks, trailers);
    SectionLeaves(AtTrailer(h.fields), trailers);
    ChunkedTellingIs(h.fields, chunks);
    OneEvent(ChunkComplete, Marked(ChunkComplete, e.fields));
    FourParts(c.out + HeadEvents(c.fields, m.head), [Marked(HeadersComplete, h.fields)], ChunksEvents(h.fields, chunks),
              [Marked(ChunkHeader, h.fields.(contentLength := 0))]);
    t := Telling(ChunkedTelling(h.fields, chunks), [Marked(ChunkComplete, e.fields)], e.fields);
  }

  lemma ChunkedReadOn(c: Config, m: Message, tail: seq<byte>) returns (d: Config, t: Telling)
    requires Between(c) && MessageAccepted(c.fields.contentLength, m) && m.payload.Chunked?
    ensures Told(c, d.out, m, t)
    ensures Passed(HttpRun(GO_ON, c, MessageText(m, tail)), c.fields.contentLength, d, m, tail)
  {
    hide HttpRun, HttpReady;
    var q, p := m.head, m.payload;
    HeadAlike(c.fields, q);
    HeadSays(c.fields, q);
    TrailerAlike(HeadFields(c.fields, q), HeadFields(Fresh(c.fields.contentLength), q), p.trailers);
    ChunkedRequest(c, q, p.chunks, p.last, p.trailers, tail);
    var h := Headed(c, q);
    var e := ChunkedEnd(h, p.chunks, p.trailers);
    TrailerAlike(HeadFields(c.fields, q), h.fields, p.trailers);
    SectionLeaves(AtTrailer(h.fields), p.trailers);
    d := Behind(e);
    t := ChunkedTold(c, m, h);
    FinishPasses(HttpRun(GO_ON, c, MessageText(m, tail)), c.fields.contentLength, e, m, tail);
  }

  /** Every message that is accepted, from wherever the counter stands: it is told as it is, its body octet for octet, and
      the parser stops behind it for an upgrade or is ready for the next message with the counter it leaves. */
  lemma MessageRead(c: Config, m: Message, tail: seq<byte>) returns (d: Config, t: Telling)
    requires Between(c) && MessageAccepted(c.fields.contentLength, m)
    ensures Told(c, d.out, m, t)
    ensures Passed(HttpRun(GO_ON, c, MessageText(m, tail)), c.fields.contentLength, d, m, tail)
  {
    hide HttpRun, HttpReady;
    match m.payload {
      case NoPayload => d, t := PlainRead(c, m, tail);
      case Sized(_) => d, t := SizedRead(c, m, tail);
      case Chunked(_, _, _) => d, t := ChunkedReadOn(c, m, tail);
    }
  }
}
