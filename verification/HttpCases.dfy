/** Inputs on which the connection does something other than one would expect, and when it does so. */
module HttpCases {
  import opened Bytes
  import opened LlhttpTypes
  import opened LlhttpTables
  import opened Llparse
  import opened LlparseSpans
  import LlparseParser
  import opened LlhttpProgram
  import opened LlhttpNumbers
  import opened LlhttpChunks
  import opened LlhttpNames
  import opened LlhttpValues
  import opened LlhttpConnection
  import opened LlhttpHeaders
  import opened LlhttpTrailers
  import opened LlhttpTargets
  import opened LlhttpMethods
  import opened LlhttpRequest
  import opened LlhttpMessage
  import opened HttpText
  import opened HttpHandler
  import opened HttpRequests

  const HTTP_POST := 3

  // "/", "0"
  const ROOT: seq<byte> := [0x2f]
  const ZERO: seq<byte> := [0x30]

  // ---------------------------------------------------------------- an opening handshake that is missed

  /** Behind any messages the parser stops for an opening handshake exactly if they leave the counter at zero. */
  lemma OpeningIff(ms: seq<Message>, target: seq<byte>, host: seq<byte>, key: seq<byte>, others: seq<Header>)
    requires Pipelined(0, ms)
    requires IsPath(target) && IsTrimmed(host) && IsTrimmed(key) && AreExtra(others)
    ensures HttpRun(GO_ON, START, PipelineText(ms, MessageText(Opening(target, host, key, others), []))).Stopped?
            <==> CounterBehind(0, ms) == 0
  {
    hide HttpRun, HttpReady;
    var n, u := CounterBehind(0, ms), Opening(target, host, key, others);
    HandshakeAccepted(n, target, host, key, others);
    StartReady();
    if n == 0 {
      UpgradeHeard(START, ms, u, []);
    } else {
      var d := OpeningMissed(ms, target, host, key, others, []);
      Waits(d);
    }
  }

  /** If they do not, the handshake is an event marked as an upgrade all the same, and what follows it is read as the
      next request. */
  lemma OpeningMissed(ms: seq<Message>, target: seq<byte>, host: seq<byte>, key: seq<byte>, others: seq<Header>,
                      tail: seq<byte>)
    returns (d: Config)
    requires Pipelined(0, ms) && CounterBehind(0, ms) > 0
    requires IsPath(target) && IsTrimmed(host) && IsTrimmed(key) && AreExtra(others)
    ensures Between(d) && d.fields.contentLength == CounterBehind(0, ms)
    ensures HttpRun(GO_ON, START, PipelineText(ms, MessageText(Opening(target, host, key, others), tail)))
            == HttpRun(GO_ON, d, tail)
    ensures Gathering(d.out, EventsFor(ms) + [HttpEvent(target, true, true, key, host)])
  {
    hide HttpRun, HttpReady;
    var n, u := CounterBehind(0, ms), Opening(target, host, key, others);
    HandshakeAccepted(n, target, host, key, others);
    HandshakeHeard(target, host, key, others);
    StartReady();
    var c := Pipeline(START, ms, MessageText(u, tail), []);
    assert [] + EventsFor(ms) == EventsFor(ms);
    var t;
    d, t := MessageRead(c, u, tail);
    MessageGathered(c, d.out, u, t, EventsFor(ms));
  }

  /** No request begins with these octets. */
  predicate NoRequest(tail: seq<byte>) {
    |tail| > 0 && tail[0] != CR && tail[0] != LF && Arm(0, tail[0]).None?
  }

  lemma NotARequest(c: Config, tail: seq<byte>)
    requires Between(c) && NoRequest(tail)
    ensures var o := HttpRun(GO_ON, c, tail);
      BadMethod(o) && o.c.out == c.out + [Marked(MessageBegin, Started(c.fields))]
  {
    MessageStart(c, tail);
    var d := c.(place := Begin(StartReq(0)), fields := Started(c.fields),
                out := c.out + [Marked(MessageBegin, Started(c.fields))]);
    ArmRefused(GO_ON, d, 0, tail);
  }

  /** What is delivered of the requests up to a handshake that is missed. */
  lemma MissedDelivered(events: seq<HttpEvent>, target: seq<byte>, host: seq<byte>, key: seq<byte>)
    requires AllServed(events) && AllowedHost(host) && key != []
    ensures Deliver(events + [HttpEvent(target, true, true, key, host)])
            == Deliver(events) + [SocketUpgrade(host, target, key)]
  {
    var e := HttpEvent(target, true, true, key, host);
    assert AllServed(events + [e]);
    LastDelivered(events, e);
  }

  lemma MissedHeard(ms: seq<Message>, target: seq<byte>, host: seq<byte>, key: seq<byte>, others: seq<Header>,
                    tail: seq<byte>)
    requires Pipelined(0, ms) && CounterBehind(0, ms) > 0
    requires IsPath(target) && IsTrimmed(host) && IsTrimmed(key) && AreExtra(others) && NoRequest(tail)
    ensures var o := HttpRun(GO_ON, START, PipelineText(ms, MessageText(Opening(target, host, key, others), tail)));
      Refused(o) && Requests(o.c.out) == EventsFor(ms) + [HttpEvent(target, true, true, key, host)]
  {
    hide HttpRun, HttpReady;
    var d := OpeningMissed(ms, target, host, key, others, tail);
    NotARequest(d, tail);
    GatherOneMore(d.out, Marked(MessageBegin, Started(d.fields)));
  }

  /** So a frame that comes right behind the handshake is taken for a request that is none: the delegate is told of the
      upgrade, but only after the handshake was cancelled. */
  method MissUpgrade(data: seq<byte>, ghost ms: seq<Message>, ghost target: seq<byte>, ghost host: seq<byte>,
                     ghost key: seq<byte>, ghost others: seq<Header>, ghost tail: seq<byte>)
    returns (told: seq<Delivery>)
    requires Pipelined(0, ms) && CounterBehind(0, ms) > 0 && AllServed(EventsFor(ms))
    requires IsPath(target) && IsTrimmed(host) && IsTrimmed(key) && AreExtra(others) && AllowedHost(host)
    requires NoRequest(tail) && data == PipelineText(ms, MessageText(Opening(target, host, key, others), tail))
    ensures told == [HandshakeCancelled] + (Deliver(EventsFor(ms)) + [SocketUpgrade(host, target, key)])
  {
    hide HttpRun, HttpReady;
    MissedHeard(ms, target, host, key, others, tail);
    MissedDelivered(EventsFor(ms), target, host, key);
    ghost var heard;
    heard, told := ReadOne(data);
  }

  // ---------------------------------------------------------------- and messages that do leave something

  // "transfer-encoding: chunked"
  const IN_CHUNKS: Header := OneLine(TRANSFER_ENCODING, ONE_SPACE, CHUNKED)

  /** A request for a slash. */
  function Asks(verb: nat, h: Header): Request {
    Asking(verb, ROOT, [h])
  }

  lemma RootIsTarget(verb: nat)
    ensures IsTarget(verb, ROOT)
  {
    assert ROOT[..0] == [];
  }

  lemma AsksIs(verb: nat, h: Header)
    requires verb < METHODS && IsLine(h)
    ensures IsRequest(Asks(verb, h))
    ensures forall bits :: Sets(Asks(verb, h).headers, bits) <==> HeaderFlags(h) & bits != 0
  {
    assert [h][1..] == [];
    RootIsTarget(verb);
    forall bits ensures Sets([h], bits) <==> HeaderFlags(h) & bits != 0 {
      SetsHead([h], bits);
    }
  }

  lemma CodingState()
    ensures IsName(TRANSFER_ENCODING) && StateOf(TRANSFER_ENCODING) == 3
  {
    assert IsWordText(TRANSFER_ENCODING);
    WordItself(TRANSFER_ENCODING);
    StateByOctetIs(TRANSFER_ENCODING);
    assert TRANSFER_ENCODING[1..] == RANSFER_ENCODING;
    SplitWord(TRANSFER_ENCODING, [0x74], RANSFER_ENCODING);
    assert [0x74] + RANSFER_ENCODING == TRANSFER_ENCODING;
  }

  lemma ChunkedWord()
    ensures IsWord(CHUNKED, CHUNKED) && IsValue(CHUNKED)
  {
    assert IsWordText(CHUNKED);
    WordItself(CHUNKED);
  }

  lemma ChunkedHeader()
    ensures IsLine(IN_CHUNKS) && IsName(IN_CHUNKS.name) && HeaderFlags(IN_CHUNKS) == F_CHUNKED
    ensures StateOf(IN_CHUNKS.name) == 3
  {
    CodingState();
    ChunkedWord();
    SimpleFlags(TRANSFER_ENCODING, ONE_SPACE, CHUNKED);
    OwnLine(TRANSFER_ENCODING, CHUNKED);
  }

  lemma ChunkedFits()
    ensures AlwaysFits(IN_CHUNKS)
  {
    ChunkedHeader();
    ChunkedWord();
    OneFits(TRANSFER_ENCODING, CHUNKED);
  }

  /** GET / in chunks, of which there are none, and a Content-Length of one in the trailer. */
  const LEFTOVER: Message := Message(Asks(HTTP_GET, IN_CHUNKS), Chunked([], Chunk(ZERO, [], []), [ONE_LENGTH]))

  lemma ZeroSize()
    ensures IsSize(ZERO, 0) && IsExtension([])
  {
    assert ZERO[..0] == [];
    assert IsNumeral(Hex, ZERO) && Number(Hex, []) == 0;
  }

  lemma LeftoverHead()
    ensures var q := LEFTOVER.head;
      && HeadAccepted(Fresh(0), q) && Sets(q.headers, F_CHUNKED) && !WantsUpgrade(q)
      && HeadFields(Fresh(0), q).flags == F_CHUNKED
  {
    hide HeaderFlags, HeaderAccepted, StateOf, IsName, IsLine;
    var q := LEFTOVER.head;
    ChunkedHeader();
    AsksIs(HTTP_GET, IN_CHUNKS);
    var f := LineFields(Fresh(0), q);
    OneHeader(f, IN_CHUNKS);
    ChunkedSays(f);
  }

  lemma ChunkedSays(f: Fields)
    ensures HeaderAccepted(f, IN_CHUNKS) && HeaderEffect(f, IN_CHUNKS).flags == f.flags | F_CHUNKED
  {
    ChunkedFits();
    ChunkedHeader();
  }

  lemma LeftoverBody(f: Fields)
    requires f.flags == F_CHUNKED
    ensures IsChunkedBody(f, [], Chunk(ZERO, [], []), [ONE_LENGTH])
    ensures SectionFields(AtTrailer(f), [ONE_LENGTH]).contentLength == 1
  {
    ZeroSize();
    LeftBehind(f);
  }

  lemma LeftoverTaken()
    ensures MessageAccepted(0, LEFTOVER) && !Pauses(0, LEFTOVER) && CounterAfter(0, LEFTOVER) == 1
  {
    LeftoverHead();
    LeftoverBody(HeadFields(Fresh(0), LEFTOVER.head));
  }

  /** It leaves a one in the counter. */
  lemma LeftoverAccepted()
    ensures Pipelined(0, [LEFTOVER]) && CounterBehind(0, [LEFTOVER]) == 1
  {
    LeftoverTaken();
    assert [LEFTOVER][1..] == [];
    assert Pipelined(1, []);
  }

  lemma NotFound(m: map<seq<byte>, seq<byte>>, hs: seq<Header>, name: seq<byte>)
    requires forall key | key in m :: !BeginsNoCase(key, name)
    requires forall i {:trigger hs[i]} | 0 <= i < |hs| :: !BeginsNoCase(hs[i].name, name)
    ensures forall key | key in HeaderMap(m, hs) :: !BeginsNoCase(key, name)
  {
    forall key | key in HeaderMap(m, hs) ensures !BeginsNoCase(key, name) {
      if BeginsNoCase(key, name) {
        HeaderOther(m, hs, key);
      }
    }
  }

  lemma LeftoverLacks(name: seq<byte>)
    requires |name| > 0 && (ToLower(name[0]) == 0x68 || ToLower(name[0]) == 0x73)
    ensures Lookup(HeaderMap(HeaderMap(map[], [IN_CHUNKS]), [ONE_LENGTH]), name) == []
  {
    FirstLetter(TRANSFER_ENCODING, name);
    FirstLetter(CONTENT_LENGTH, name);
    NotFound(map[], [IN_CHUNKS], name);
    NotFound(HeaderMap(map[], [IN_CHUNKS]), [ONE_LENGTH], name);
  }

  lemma LeftoverServed()
    ensures EventsFor([LEFTOVER]) == [HttpEvent(ROOT, false, true, [], [])]
    ensures AllServed(EventsFor([LEFTOVER])) && Deliver(EventsFor([LEFTOVER])) == [HttpGet([], ROOT)]
  {
    LeftoverHead();
    LeftoverLacks(HOST);
    LeftoverLacks(WS_KEY);
    var e := MessageEvent(LEFTOVER);
    assert [LEFTOVER][1..] == [] && [e] + [] == [e];
    assert WithoutPort([]) == [];
    assert AllowedHost([]) && Verdict(e) == HttpGet([], ROOT);
    assert Deliver([e][1..]) == [];
  }

  /** The first octet of a text frame. */
  lemma FrameIsNoRequest(frame: seq<byte>)
    requires |frame| > 0 && frame[0] == 0x81
    ensures NoRequest(frame)
  {
  }

  /** From the octets: this request, an opening handshake and the first frame in one read. Without the trailer the
      handshake would be delivered as Upgrade says. */
  method MissBehindTrailer(data: seq<byte>, ghost target: seq<byte>, ghost host: seq<byte>, ghost key: seq<byte>,
                           ghost others: seq<Header>, ghost frame: seq<byte>)
    returns (told: seq<Delivery>)
    requires IsPath(target) && IsTrimmed(host) && IsTrimmed(key) && AreExtra(others) && AllowedHost(host)
    requires |frame| > 0 && frame[0] == 0x81
    requires data == MessageText(LEFTOVER, MessageText(Opening(target, host, key, others), frame))
    ensures told == [HandshakeCancelled, HttpGet([], ROOT), SocketUpgrade(host, target, key)]
  {
    hide HttpRun, HttpReady, IsPath, IsTrimmed, AreExtra, AllowedHost, Deliver, EventsFor, CounterBehind, Pipelined;
    hide AllServed, Opening;
    LeftoverAccepted();
    LeftoverServed();
    FrameIsNoRequest(frame);
    assert [LEFTOVER][1..] == [];
    told := MissUpgrade(data, [LEFTOVER], target, host, key, others, frame);
  }

  // ---------------------------------------------------------------- a CR for a hyphen

  // "content<CR>length", "keep<CR>alive"
  const CR_LENGTH: seq<byte> := [0x63, 0x6f, 0x6e, 0x74, 0x65, 0x6e, 0x74, CR, 0x6c, 0x65, 0x6e, 0x67, 0x74, 0x68]
  const CR_ALIVE: seq<byte> := [0x6b, 0x65, 0x65, 0x70, CR, 0x61, 0x6c, 0x69, 0x76, 0x65]

  lemma CrHyphened()
    ensures Hyphened(CR_LENGTH) == CONTENT_LENGTH
  {
    var s, word := CR_LENGTH, CONTENT_LENGTH;
    assert s[0] == word[0] && s[1] == word[1] && s[2] == word[2] && s[3] == word[3] && s[4] == word[4];
    assert s[5] == word[5] && s[6] == word[6] && s[7] == CR && word[7] == HYPHEN && s[8] == word[8];
    assert s[9] == word[9] && s[10] == word[10] && s[11] == word[11] && s[12] == word[12] && s[13] == word[13];
  }

  lemma CrLengthIs()
    ensures IsName(CR_LENGTH) && StateOf(CR_LENGTH) == 2
  {
    CrHyphened();
    CrIsHyphen(CR_LENGTH);
    LengthState();
    WordItself(CONTENT_LENGTH);
    assert CR_LENGTH[..7] == CONTENT_LENGTH[..7];
    assert CrFor(CR_LENGTH, CONTENT_LENGTH, 7);
    forall i: nat {:trigger CR_LENGTH[i]} | i < 14
      ensures IsFieldOctet(CR_LENGTH[i]) || CrFor(CR_LENGTH, CONTENT_LENGTH, i)
    {
      assert i != 7 ==> CR_LENGTH[i] == CONTENT_LENGTH[i];
    }
  }

  const ONE_LENGTH_CR: Header := OneLine(CR_LENGTH, ONE_SPACE, [0x31])

  /** A POST whose length is spelled with a CR. */
  function Posted(x: byte): Message {
    Message(Asks(HTTP_POST, ONE_LENGTH_CR), Sized([x]))
  }

  lemma LengthHeader()
    ensures IsLine(ONE_LENGTH_CR) && HeaderFlags(ONE_LENGTH_CR) == F_CONTENT_LENGTH
    ensures IsLength(0, ONE_LENGTH_CR.value) && Length(0, ONE_LENGTH_CR.value) == 1
  {
    hide StateOf, IsName, IsLength, Length;
    CrLengthIs();
    OneDigitLength();
    assert IsTrimmed([0x31]);
    OwnLine(CR_LENGTH, [0x31]);
    SimpleFlags(CR_LENGTH, ONE_SPACE, [0x31]);
  }

  lemma PostedHead(x: byte)
    ensures var q := Posted(x).head;
      && IsRequest(q) && Sets(q.headers, F_CONTENT_LENGTH) && !Sets(q.headers, F_CHUNKED) && !WantsUpgrade(q)
      && SectionAccepted(LineFields(Fresh(0), q), q.headers) && HeadCounter(0, q) == 1
  {
    var q := Posted(x).head;
    CrLengthIs();
    LengthHeader();
    AsksIs(HTTP_POST, ONE_LENGTH_CR);
    var f := LineFields(Fresh(0), q);
    assert q.headers[1..] == [];
    assert SectionFields(f, q.headers) == HeaderEffect(f, ONE_LENGTH_CR);
  }

  lemma PostedAccepted(x: byte)
    ensures MessageAccepted(0, Posted(x)) && !Pauses(0, Posted(x)) && CounterAfter(0, Posted(x)) == 0
  {
    PostedHead(x);
  }

  /** The octet behind the head is its body: the length takes effect. */
  lemma CrTaken(x: byte, tail: seq<byte>) returns (d: Config, t: Telling)
    ensures Between(d) && Told(START, d.out, Posted(x), t) && BodyOctets(t.body) == [x]
    ensures HttpRun(GO_ON, START, MessageText(Posted(x), tail)) == HttpRun(GO_ON, d, tail)
  {
    hide HttpRun, HttpReady;
    StartReady();
    PostedAccepted(x);
    d, t := MessageRead(START, Posted(x), tail);
  }

  /** An element of a Connection header that is keep-alive but for a CR in place of the hyphen keeps the connection. */
  lemma CrKeepsAlive()
    ensures IsList(CR_ALIVE) && ConnectionFlags(CR_ALIVE) == F_CONNECTION_KEEP_ALIVE
  {
    hide IsElement, TokenFlag;
    OneElement(CR_ALIVE);
    CrAliveIs();
  }

  lemma CrAliveIs()
    ensures IsElement(CR_ALIVE) && TokenFlag(CR_ALIVE) == F_CONNECTION_KEEP_ALIVE
  {
    var e := CR_ALIVE;
    assert BeginsWith(e, KEEP_ALIVE) && e[|KEEP_ALIVE|..] == [];
    assert !Skipped(e[0]) && AsWord(e[0]) == 0x6b;
    assert forall i: nat | i < |e| :: IsElementOctet(e, i);
  }

  // ---------------------------------------------------------------- a NUL in a Connection header

  // "close,<NUL>upgrade", "<NUL>upgrade"
  const NUL_UPGRADE: seq<byte> := [0x63, 0x6c, 0x6f, 0x73, 0x65, COMMA] + NUL_WORD
  const NUL_WORD: seq<byte> := [0] + UPGRADE

  lemma CloseIs()
    ensures IsElement(CLOSE) && TokenFlag(CLOSE) == F_CONNECTION_CLOSE && Commaless(CLOSE)
  {
    assert !Skipped(CLOSE[0]) && IsWord(CLOSE, CLOSE);
    assert forall i: nat | i < |CLOSE| :: IsElementOctet(CLOSE, i);
  }

  lemma NulWordIs()
    ensures IsElement(NUL_WORD) && TokenFlag(NUL_WORD) == F_CONNECTION_UPGRADE && Commaless(NUL_WORD)
  {
    assert NUL_WORD[1..] == UPGRADE && Skipped(NUL_WORD[0]) && !Skipped(UPGRADE[0]);
    assert IsWord(UPGRADE, UPGRADE) && AsWord(UPGRADE[0]) == 0x75;
    assert forall i: nat | i < |UPGRADE| :: IsElementOctet(UPGRADE, i);
    assert forall i {:trigger NUL_WORD[i]} | 0 <= i < |NUL_WORD| :: NUL_WORD[i] != COMMA;
  }

  lemma NulSplit()
    ensures HasComma(NUL_UPGRADE) && NUL_UPGRADE[..CommaAt(NUL_UPGRADE)] == CLOSE
    ensures LlhttpConnection.Behind(NUL_UPGRADE) == NUL_WORD
  {
    var s := NUL_UPGRADE;
    assert s[5] == COMMA && s[0] == 0x63 && s[1] == 0x6c && s[2] == 0x6f && s[3] == 0x73 && s[4] == 0x65;
    assert CommaAt(s) == 5;
    assert s[..5] == CLOSE && s[6..] == NUL_WORD;
  }

  /** In front of an element of a Connection header a NUL is skipped like a blank: behind close, a NUL and upgrade the
      message counts as both, while in any other header the same octets are an error. */
  lemma NulSkipped()
    ensures IsList(NUL_UPGRADE) && !IsValue(NUL_UPGRADE)
    ensures ConnectionFlags(NUL_UPGRADE) == F_CONNECTION_CLOSE | F_CONNECTION_UPGRADE
  {
    hide IsElement, TokenFlag;
    NulSplit();
    CloseIs();
    NulWordIs();
    OneElement(NUL_WORD);
    assert !IsValueOctet(NUL_UPGRADE[6]);
  }

  // ---------------------------------------------------------------- a value on several lines

  // "transfer-encoding: chunked", gone on with in the next line
  function CodedOn(fold: seq<byte>): Header {
    Header(TRANSFER_ENCODING, ONE_SPACE, CHUNKED, [fold], CRLF)
  }

  /** Whatever a second line adds to the coding, the body counts as chunked; and if the word comes in the second line only,
      it does not. */
  lemma SecondLineIgnored(fold: seq<byte>, value: seq<byte>)
    requires IsFold(fold) && IsTrimmed(value) && !IsWord(value, CHUNKED)
    ensures HeaderFlags(CodedOn(fold)) == F_CHUNKED
    ensures HeaderFlags(Header(TRANSFER_ENCODING, ONE_SPACE, value, [[SP] + CHUNKED], CRLF)) == 0
  {
    hide HeaderFlags, StateOf, IsWord;
    CodingState();
    ChunkedWord();
    FirstLineDecides(CodedOn(fold));
    FirstLineDecides(Header(TRANSFER_ENCODING, ONE_SPACE, value, [[SP] + CHUNKED], CRLF));
    SimpleFlags(TRANSFER_ENCODING, ONE_SPACE, CHUNKED);
    SimpleFlags(TRANSFER_ENCODING, ONE_SPACE, value);
  }

  // ---------------------------------------------------------------- what a CONNECT leaves behind

  /** A client that goes on behind a CONNECT finds its length in the counter: an opening handshake stops the parser exactly
      if that is zero. */
  lemma ConnectHides(q: Request, target: seq<byte>, host: seq<byte>, key: seq<byte>, others: seq<Header>)
    requires HeadAccepted(START.fields, q) && q.verb == HTTP_CONNECT
    requires IsPath(target) && IsTrimmed(host) && IsTrimmed(key) && AreExtra(others)
    ensures var d := Upgrading(Headed(START, q));
      && StopsForUpgrade(HttpRun(GO_ON, START, RequestText(q, [])), d, [])
      && (HttpRun(GO_ON, d, MessageText(Opening(target, host, key, others), [])).Stopped?
          <==> HeadFields(START.fields, q).contentLength == 0)
  {
    hide HttpRun, HttpReady;
    StartReady();
    var u := Opening(target, host, key, others);
    ConnectRequest(START, q, [], MessageText(u, []));
    var e := NextMessage(Headed(START, q));
    HandshakeAccepted(e.fields.contentLength, target, host, key, others);
    HandshakeSets(target, host, key, others);
    HeadAlike(e.fields, u.head);
    UpgradeIff(e, u.head);
  }

  // "CONNECT / HTTP/1.1" with a Content-Length of one
  const TUNNEL: Request := Asks(HTTP_CONNECT, ONE_LENGTH)

  /** For instance this one leaves a one. */
  lemma TunnelLeaves()
    ensures HeadAccepted(START.fields, TUNNEL) && HeadFields(START.fields, TUNNEL).contentLength == 1
  {
    hide StateOf, IsName, IsLength, Length;
    LengthName();
    OneDigitLength();
    AsksIs(HTTP_CONNECT, ONE_LENGTH);
    SimpleFlags(CONTENT_LENGTH, [SP], [0x31]);
    OneHeader(LineFields(START.fields, TUNNEL), ONE_LENGTH);
    OneLengthSays(LineFields(START.fields, TUNNEL));
  }

  lemma OneLengthSays(f: Fields)
    requires f.flags == 0 && f.contentLength == 0
    ensures HeaderAccepted(f, ONE_LENGTH) && HeaderEffect(f, ONE_LENGTH).contentLength == 1
  {
    LengthName();
    OneDigitLength();
  }

  // ---------------------------------------------------------------- where the reads are cut

  // "POST / HTTP/1.1" and "GET / HTTP/1.1" without headers
  const REFUSED: Message := Message(Asking(HTTP_POST, ROOT, []), NoPayload)
  const SERVED: Message := Message(Asking(HTTP_GET, ROOT, []), NoPayload)

  // "POST / HTTP/1.1<CR><LF><CR><LF>", "GET / HTTP/1.1<CR><LF><CR><LF>"
  const VERSION_TEXT: seq<byte> := [0x20, 0x48, 0x54, 0x54, 0x50, 0x2f, 0x31, 0x2e, 0x31, CR, LF, CR, LF]
  const POST_TEXT: seq<byte> := [0x50, 0x4f, 0x53, 0x54, 0x20, 0x2f] + VERSION_TEXT
  const GET_TEXT: seq<byte> := [0x47, 0x45, 0x54, 0x20, 0x2f] + VERSION_TEXT

  lemma BareText(verb: nat, tail: seq<byte>)
    requires verb < METHODS
    ensures RequestText(Asking(verb, ROOT, []), tail) == MethodName(verb) + ([SP] + (ROOT + (VERSION_TEXT + tail)))
  {
    var version := [SP, 0x48] + (TTP + ([0x31, DOT, 0x31] + (CRLF + (SectionText([]) + (CRLF + tail)))));
    assert SectionText([]) + (CRLF + tail) == CRLF + tail;
    assert version == VERSION_TEXT + tail;
  }

  /** A request without headers, whatever ends them. */
  lemma BareAccepted(n: nat, verb: nat, end: seq<byte>)
    requires verb < METHODS && verb != HTTP_CONNECT && IsEnd(end)
    ensures var m := Message(Asking(verb, ROOT, []).(end := end), NoPayload);
      && MessageAccepted(n, m) && !Pauses(n, m) && CounterAfter(n, m) == n
      && MessageEvent(m) == HttpEvent(ROOT, false, verb == HTTP_GET, [], [])
  {
    RootIsTarget(verb);
    forall bits ensures !Sets([], bits) {
    }
    assert HeaderMap(HeaderMap(map[], []), []) == map[];
    assert Lookup(map[], WS_KEY) == [] && Lookup(map[], HOST) == [];
  }

  lemma OneRead(data: seq<byte>, d: Config)
    requires HttpRun(GO_ON, START, data) == Running(d)
    ensures Reads([data]) == Deliver(Requests(d.out))
  {
    StartReady();
    LlhttpWellFormed();
    OnePiece(LLHTTP, GO_ON, START, data);
    FromTheStart(Running(d));
  }

  lemma TwoReads(a: seq<byte>, d: Config, b: seq<byte>, e: Config)
    requires HttpRun(GO_ON, START, a) == Running(d) && HttpReady(d) && HttpRun(GO_ON, d, b) == Running(e)
    ensures Reads([a, b]) == Deliver(Requests(d.out)) + Deliver(Since(Requests(d.out), Requests(e.out)))
  {
    StartReady();
    LlhttpWellFormed();
    TwoPieces(LLHTTP, GO_ON, START, a, b);
    FromTheStart(Running(d));
  }

  /** The same messages in one read and in two, the first of which ends between them. */
  lemma BothReads(ms: seq<Message>, more: seq<Message>, whole: seq<byte>)
    requires Pipelined(0, ms) && Pipelined(CounterBehind(0, ms), more)
    requires whole == PipelineText(ms, PipelineText(more, []))
    ensures Reads([PipelineText(ms, []), PipelineText(more, [])]) == Deliver(EventsFor(ms)) + Deliver(EventsFor(more))
    ensures Reads([whole]) == Deliver(EventsFor(ms) + EventsFor(more))
  {
    hide HttpRun, HttpReady, Reads, Pipelined, CounterBehind;
    StartReady();
    assert [] + EventsFor(ms) == EventsFor(ms);
    var d := Pipeline(START, ms, [], []);
    Waits(d);
    var e := Pipeline(d, more, [], EventsFor(ms));
    Waits(e);
    TwoReads(PipelineText(ms, []), d, PipelineText(more, []), e);
    assert Since(EventsFor(ms), EventsFor(ms) + EventsFor(more)) == EventsFor(more);
    var w := Pipeline(START, ms, PipelineText(more, []), []);
    var z := Pipeline(w, more, [], EventsFor(ms));
    Waits(z);
    OneRead(whole, z);
  }

  /** A POST, which is refused, and a GET: in one read only the refusal is told; if the first read ends between the two,
      the GET is served behind it. */
  lemma CutDecides()
    ensures Reads([POST_TEXT + GET_TEXT]) == [HandshakeCancelled]
    ensures Reads([POST_TEXT, GET_TEXT]) == [HandshakeCancelled, HttpGet([], ROOT)]
  {
    hide Reads, MessageAccepted, Pauses, CounterAfter, MessageEvent, EventsFor, PipelineText;
    PairPipelined();
    BothReads([REFUSED], [SERVED], POST_TEXT + GET_TEXT);
    PairDelivered();
  }

  lemma PairPipelined()
    ensures Pipelined(0, [REFUSED]) && CounterBehind(0, [REFUSED]) == 0 && Pipelined(0, [SERVED])
    ensures PipelineText([REFUSED], []) == POST_TEXT && PipelineText([SERVED], []) == GET_TEXT
    ensures PipelineText([REFUSED], GET_TEXT) == POST_TEXT + GET_TEXT
  {
    hide MessageAccepted, Pauses, CounterAfter, RequestText;
    BareAccepted(0, HTTP_POST, CRLF);
    BareAccepted(0, HTTP_GET, CRLF);
    assert [REFUSED][1..] == [] && [SERVED][1..] == [];
    assert Pipelined(0, []);
    BareText(HTTP_POST, []);
    BareText(HTTP_POST, GET_TEXT);
    BareText(HTTP_GET, []);
    assert MethodName(HTTP_POST) == [0x50, 0x4f, 0x53, 0x54] && MethodName(HTTP_GET) == [0x47, 0x45, 0x54];
    assert [0x50, 0x4f, 0x53, 0x54] + ([SP] + (ROOT + (VERSION_TEXT + []))) == POST_TEXT;
    assert [0x50, 0x4f, 0x53, 0x54] + ([SP] + (ROOT + (VERSION_TEXT + GET_TEXT))) == POST_TEXT + GET_TEXT;
    assert [0x47, 0x45, 0x54] + ([SP] + (ROOT + (VERSION_TEXT + []))) == GET_TEXT;
  }

  lemma PairDelivered()
    ensures Deliver(EventsFor([REFUSED])) == [HandshakeCancelled] == Deliver(EventsFor([REFUSED]) + EventsFor([SERVED]))
    ensures Deliver(EventsFor([SERVED])) == [HttpGet([], ROOT)]
  {
    hide MessageAccepted, Pauses, CounterAfter, MessageEvent;
    BareAccepted(0, HTTP_POST, CRLF);
    BareAccepted(0, HTTP_GET, CRLF);
    var p, g := MessageEvent(REFUSED), MessageEvent(SERVED);
    assert [REFUSED][1..] == [] && [SERVED][1..] == [] && [p] + [] == [p] && [g] + [] == [g];
    assert ([p] + [g])[0] == p && [g][1..] == [];
    assert WithoutPort([]) == [];
    assert AllowedHost([]);
  }

  // ---------------------------------------------------------------- any octet behind a CR

  // "GET / HTTP/1.1<CR><LF><CR>" and one octet more
  function LooseText(x: byte): seq<byte> {
    [0x47, 0x45, 0x54, 0x20, 0x2f, 0x20, 0x48, 0x54, 0x54, 0x50, 0x2f, 0x31, 0x2e, 0x31, CR, LF, CR, x]
  }

  function Loose(x: byte): Message {
    Message(Asking(HTTP_GET, ROOT, []).(end := [CR, x]), NoPayload)
  }

  lemma LooseIs(x: byte)
    ensures MessageText(Loose(x), []) == LooseText(x)
  {
    assert MethodName(HTTP_GET) == [0x47, 0x45, 0x54];
    assert SectionText([]) + ([CR, x] + []) == [CR, x];
  }

  /** The request is complete and served whatever octet comes where its last LF should be. */
  lemma LooseServed(x: byte)
    ensures Reads([LooseText(x)]) == [HttpGet([], ROOT)]
  {
    hide HttpRun, HttpReady, Reads, MessageAccepted, Pauses, CounterAfter, MessageEvent, MessageText;
    var m, g := Loose(x), HttpEvent(ROOT, false, true, [], []);
    BareAccepted(0, HTTP_GET, [CR, x]);
    LooseIs(x);
    assert [m][1..] == [] && Pipelined(0, []) && [g] + [] == [g] && [g][1..] == [];
    PlainHeard([m]);
    OneRead(LooseText(x), HttpRun(GO_ON, START, LooseText(x)).c);
    assert WithoutPort([]) == [];
    assert AllowedHost([]);
  }

  // ---------------------------------------------------------------- an error in the middle of a target

  /** A request up to somewhere in its target. */
  function TargetBegun(m: nat, a: seq<byte>): seq<byte>
    requires m < METHODS
  {
    MethodName(m) + ([SP] + a)
  }

  lemma TargetBegunRead(m: nat, a: seq<byte>, tail: seq<byte>) returns (d: Config)
    requires m < METHODS && m != HTTP_CONNECT && IsPath(a)
    ensures InUrl(d) && InText(d.place) && d.pending == Some(Pending(UrlSpan, a))
    ensures HttpRun(GO_ON, START, TargetBegun(m, a) + tail) == HttpRun(GO_ON, d, tail)
  {
    hide HttpRun, HttpReady;
    assert TargetBegun(m, a) + tail == MethodName(m) + ([SP] + (a + tail));
    StartReady();
    VerbRead(START, m, [SP] + (a + tail));
    var c := START.(place := Begin(ReqFirstSpaceBeforeUrl), fields := WithVerb(START.fields, m),
                    out := START.out + [Marked(MessageBegin, Started(START.fields))]);
    var l := PathRead(c, a, tail);
    d := c.(place := l, pending := Some(Pending(UrlSpan, a)));
  }

  /** A target with an octet in it that is none of a target's: if the buffer ends somewhere before, the caller has heard
      the target up to there; if it does not, the caller has heard nothing. The error is the same. */
  lemma CutTarget(m: nat, a: seq<byte>, b: seq<byte>, x: byte)
    requires m < METHODS && m != HTTP_CONNECT && IsPath(a) && IsTargetText(b) && OffTarget(x)
    requires LLHTTP.WellFormed() && HttpReady(START)
    ensures var first, second := TargetBegun(m, a), b + [x];
      var o := HttpRun(GO_ON, START, first + second);
      && o.Stopped? && o.code == 7 && o.rest == [x] && o.c.pending == Some(Pending(UrlSpan, a + b))
      && OpenOver(LLHTTP, GO_ON, START, [first, second]) == Some(Pending(UrlSpan, a))
      && OpenOver(LLHTTP, GO_ON, START, [first + second]) == None
  {
    var first, second := TargetBegun(m, a), b + [x];
    var d := TargetPart(m, a);
    var l := TextRead(d, b, [x]);
    TargetRefused(d.(place := l, pending := Extend(d.pending, b)), x, []);
    assert [x] + [] == [x];
    TwoBuffers(LLHTTP, GO_ON, START, first, second);
    OpenOne(LLHTTP, GO_ON, START, first + second);
  }

  lemma TargetPart(m: nat, a: seq<byte>) returns (d: Config)
    requires m < METHODS && m != HTTP_CONNECT && IsPath(a)
    ensures InUrl(d) && InText(d.place) && d.pending == Some(Pending(UrlSpan, a))
    ensures HttpRun(GO_ON, START, TargetBegun(m, a)) == Running(d)
  {
    d := TargetBegunRead(m, a, []);
    assert TargetBegun(m, a) + [] == TargetBegun(m, a);
    HttpOn(GO_ON, d, []);
  }

  lemma FlattenTwo(a: seq<byte>, b: seq<byte>)
    ensures Flatten([a + b]) == a + b && Flatten([a, b]) == a + b
  {
    var two, one, whole := [a, b], [b], [a + b];
    assert two[1..] == one && |one[1..]| == 0 && |whole[1..]| == 0;
    assert b + [] == b && a + b + [] == a + b;
  }

  /** The same of the callbacks themselves. */
  method HearTarget(m: nat, a: seq<byte>, b: seq<byte>, x: byte)
    returns (whole: seq<LlparseParser.Call>, parts: seq<LlparseParser.Call>)
    requires m < METHODS && m != HTTP_CONNECT && IsPath(a) && IsTargetText(b) && OffTarget(x)
    ensures LlparseParser.HearAll(whole).out == LlparseParser.HearAll(parts).out
    ensures LlparseParser.HearAll(whole).open == None
    ensures LlparseParser.HearAll(parts).open == Some(Pending(UrlSpan, a))
  {
    LlhttpWellFormed();
    StartReady();
    var first, second := TargetBegun(m, a), b + [x];
    CutTarget(m, a, b, x);
    FlattenTwo(first, second);
    var place, fields, error, taken;
    place, fields, whole, error, taken := LlparseParser.ExecuteAll(LLHTTP, HTTP_REQUEST, GO_ON, [first + second]);
    place, fields, parts, error, taken := LlparseParser.ExecuteAll(LLHTTP, HTTP_REQUEST, GO_ON, [first, second]);
  }
}
