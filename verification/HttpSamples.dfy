/** What is decided by the host of a request, and requests by their octets. */
module HttpSamples {
  import opened Bytes
  import opened LlhttpTypes
  import opened LlhttpTables
  import opened Llparse
  import opened LlhttpProgram
  import opened LlhttpNumbers
  import opened LlhttpChunks
  import opened LlhttpNames
  import opened LlhttpValues
  import opened LlhttpHeaders
  import opened LlhttpTrailers
  import opened LlhttpTargets
  import opened LlhttpMethods
  import opened LlhttpRequest
  import opened LlhttpMessage
  import opened HttpText
  import opened HttpHandler
  import opened HttpRequests
  import opened HttpCases
  import AcceptSample

  // ---------------------------------------------------------------- the host decides

  /** A GET with a host and other headers, but none that the parser treats specially. */
  function Fetch(target: seq<byte>, host: seq<byte>, others: seq<Header>): Message {
    Message(Asking(HTTP_GET, target, [OneLine(HOST, ONE_SPACE, host)] + others), NoPayload)
  }

  lemma FetchHeader(target: seq<byte>, host: seq<byte>, others: seq<Header>, i: nat)
    requires i <= |others| && IsTrimmed(host) && AreExtra(others)
    ensures var hs := Fetch(target, host, others).head.headers;
      && |hs| == |others| + 1 && AlwaysFits(hs[i]) && HeaderFlags(hs[i]) == 0
      && (BeginsNoCase(hs[i].name, HOST) <==> i == 0) && !BeginsNoCase(hs[i].name, WS_KEY)
  {
    if i == 0 {
      OwnHeader(host, host, 0);
      OwnFlags(host, host, 0);
      OwnNames(host, host, 0);
      assert OwnHeaders(host, host)[0] == OneLine(HOST, ONE_SPACE, host);
    } else {
      assert IsExtra(others[i - 1]);
      ExtraFits(others[i - 1]);
    }
  }

  lemma FetchSays(target: seq<byte>, host: seq<byte>, others: seq<Header>)
    requires IsPath(target) && IsTrimmed(host) && AreExtra(others)
    ensures var q := Fetch(target, host, others).head;
      && IsRequest(q) && !WantsUpgrade(q) && !Sets(q.headers, F_CHUNKED) && !Sets(q.headers, F_CONTENT_LENGTH)
      && AllFit(q.headers)
  {
    hide HeaderFlags, AlwaysFits, IsTrimmed, IsPath;
    var hs := Fetch(target, host, others).head.headers;
    forall i: nat {:trigger hs[i]} | i < |hs| ensures AlwaysFits(hs[i]) && HeaderFlags(hs[i]) == 0 {
      FetchHeader(target, host, others, i);
    }
    FitLines(hs);
    PathIsTarget(target);
  }

  lemma PathIsTarget(target: seq<byte>)
    requires IsPath(target)
    ensures IsTarget(HTTP_GET, target)
  {
  }

  lemma FitLines(hs: seq<Header>)
    requires AllFit(hs)
    ensures AreLines(hs)
  {
    forall i {:trigger hs[i]} | 0 <= i < |hs| ensures IsLine(hs[i]) && !Indented(hs[i]) {
      assert AlwaysFits(hs[i]);
    }
  }

  lemma FetchFound(target: seq<byte>, host: seq<byte>, others: seq<Header>)
    requires IsTrimmed(host) && AreExtra(others)
    ensures var m := HeaderMap(map[], Fetch(target, host, others).head.headers);
      Lookup(m, HOST) == host && Lookup(m, WS_KEY) == []
  {
    hide HeaderFlags, AlwaysFits, HeaderMap;
    var hs := Fetch(target, host, others).head.headers;
    forall i: nat {:trigger hs[i]} | i < |hs|
      ensures BeginsNoCase(hs[i].name, HOST) <==> i == 0
      ensures !BeginsNoCase(hs[i].name, WS_KEY)
    {
      FetchHeader(target, host, others, i);
    }
    LookupOne(hs, 0, HOST);
    HttpRequests.PlainTold(HOST, host);
    NotFound(map[], hs, WS_KEY);
  }

  lemma FetchAccepted(target: seq<byte>, host: seq<byte>, others: seq<Header>)
    requires IsPath(target) && IsTrimmed(host) && AreExtra(others)
    ensures var m := Fetch(target, host, others);
      && MessageAccepted(0, m) && !Pauses(0, m) && CounterAfter(0, m) == 0
      && MessageEvent(m) == HttpEvent(target, false, true, [], host)
  {
    var q := Fetch(target, host, others).head;
    FetchSays(target, host, others);
    FetchFound(target, host, others);
    NoLengthHeader(LineFields(Fresh(0), q), q.headers);
  }

  /** A GET is delivered if and only if its host is allowed; else the handshake is cancelled. */
  lemma HostDecides(target: seq<byte>, host: seq<byte>, others: seq<Header>)
    requires IsPath(target) && IsTrimmed(host) && AreExtra(others)
    ensures Reads([MessageText(Fetch(target, host, others), [])])
            == [if AllowedHost(host) then HttpGet(host, target) else HandshakeCancelled]
  {
    hide HttpRun, HttpReady, Reads, MessageAccepted, Pauses, CounterAfter, MessageEvent, MessageText, AllowedHost;
    hide IsPath, IsTrimmed, AreExtra;
    var m, e := Fetch(target, host, others), HttpEvent(target, false, true, [], host);
    FetchAccepted(target, host, others);
    assert [m][1..] == [] && Pipelined(0, []) && [e] + [] == [e] && [e][1..] == [];
    PlainHeard([m]);
    OneRead(MessageText(m, []), HttpRun(GO_ON, START, MessageText(m, [])).c);
  }

  /** An opening handshake for a host that is not allowed is cancelled, behind whatever was served before it. */
  method ForeignUpgrade(data: seq<byte>, ghost ms: seq<Message>, ghost target: seq<byte>, ghost host: seq<byte>,
                        ghost key: seq<byte>, ghost others: seq<Header>, ghost tail: seq<byte>)
    returns (told: seq<Delivery>)
    requires Pipelined(0, ms) && CounterBehind(0, ms) == 0 && AllServed(EventsFor(ms))
    requires IsPath(target) && IsTrimmed(host) && IsTrimmed(key) && AreExtra(others) && !AllowedHost(host)
    requires data == PipelineText(ms, MessageText(Opening(target, host, key, others), tail))
    ensures told == Deliver(EventsFor(ms)) + [HandshakeCancelled]
  {
    hide HttpRun, HttpReady, AllowedHost, IsPath, IsTrimmed, AreExtra;
    ghost var u := Opening(target, host, key, others);
    HandshakeHeard(target, host, key, others);
    HandshakeAccepted(0, target, host, key, others);
    StartReady();
    UpgradeHeard(START, ms, u, tail);
    LastRefused(EventsFor(ms), MessageEvent(u));
    ghost var heard;
    heard, told := ReadOne(data);
  }

  lemma LastRefused(events: seq<HttpEvent>, e: HttpEvent)
    requires AllServed(events) && Verdict(e).HandshakeCancelled?
    ensures Deliver(events + [e]) == Deliver(events) + [HandshakeCancelled]
  {
    DeliverSplit(events, [e]);
    assert Deliver([e]) == [HandshakeCancelled];
  }

  // ---------------------------------------------------------------- hosts by their octets

  // "attacker.example"
  const FOREIGN: seq<byte> := [
    0x61, 0x74, 0x74, 0x61, 0x63, 0x6b, 0x65, 0x72, 0x2e, 0x65, 0x78, 0x61, 0x6d, 0x70, 0x6c, 0x65]
  // "LocalHost:9229"
  const LOCAL: seq<byte> := [0x4c, 0x6f, 0x63, 0x61, 0x6c, 0x48, 0x6f, 0x73, 0x74, 0x3a, 0x39, 0x32, 0x32, 0x39]
  // "127.0.0.1"
  const LOOPBACK: seq<byte> := [0x31, 0x32, 0x37, 0x2e, 0x30, 0x2e, 0x30, 0x2e, 0x31]

  // "[::1]:9229"
  const BRACKETED: seq<byte> := [0x5b, 0x3a, 0x3a, 0x31, 0x5d, 0x3a, 0x39, 0x32, 0x32, 0x39]
  // "localhost6"
  const SIXTH: seq<byte> := [0x6c, 0x6f, 0x63, 0x61, 0x6c, 0x68, 0x6f, 0x73, 0x74, 0x36]

  /** No host, this machine by name, whatever the case and the port, and an address are allowed; another name is not. */
  lemma SampleHosts()
    ensures AllowedHost([]) && AllowedHost(LOCAL) && AllowedHost(SIXTH)
    ensures AllowedHost(LOOPBACK) && AllowedHost(BRACKETED) && !AllowedHost(FOREIGN)
  {
    NoHostAllowed();
    LocalAllowed();
    SixthAllowed();
    LoopbackAllowed();
    BracketedAllowed();
    ForeignRefused();
  }

  // "LocalHost"
  const LOCAL_NAME: seq<byte> := [0x4c, 0x6f, 0x63, 0x61, 0x6c, 0x48, 0x6f, 0x73, 0x74]

  lemma LocalName()
    ensures NoNul(LOCAL_NAME) && SameNoCase(LOCAL_NAME, LOCALHOST)
  {
  }

  lemma LocalPort()
    ensures WithoutPort(LOCAL) == LOCAL_NAME
  {
    assert PortAt(LOCAL, 9);
    forall at: nat | PortAt(LOCAL, at) ensures at == 9 {
      assert LOCAL[9] == COLON;
    }
    assert LOCAL[..9] == LOCAL_NAME;
  }

  lemma LocalAllowed()
    ensures AllowedHost(LOCAL)
  {
    hide SameNoCase, NoNul, LooksLikeAddress, CString;
    LocalPort();
    LocalName();
    WholeString(LOCAL_NAME);
  }

  lemma DotsOn(s: seq<byte>, k: nat)
    requires k < |s|
    ensures Dots(s[..k + 1]) == Dots(s[..k]) + if s[k] == DOT then 1 else 0
  {
    assert s[..k + 1][..k] == s[..k];
  }

  lemma LoopbackDots()
    ensures Dots(LOOPBACK) == 3
  {
    var s := LOOPBACK;
    assert s[..0] == [] && s[..9] == s && Dots([]) == 0;
    hide Dots;
    DotsOn(s, 0);
    DotsOn(s, 1);
    DotsOn(s, 2);
    DotsOn(s, 3);
    DotsOn(s, 4);
    DotsOn(s, 5);
    DotsOn(s, 6);
    DotsOn(s, 7);
    DotsOn(s, 8);
  }

  lemma LoopbackAllowed()
    ensures AllowedHost(LOOPBACK)
  {
    hide LooksLikeAddress;
    LoopbackLooks();
    assert forall at: nat :: !PortAt(LOOPBACK, at);
    assert WithoutPort(LOOPBACK) == LOOPBACK;
  }

  lemma LoopbackLooks()
    ensures LooksLikeAddress(LOOPBACK)
  {
    hide Dots;
    LoopbackDots();
    assert forall i | 0 <= i < |LOOPBACK| :: LOOPBACK[i] == DOT || 0x30 <= LOOPBACK[i] <= 0x39;
  }

  lemma NoHostAllowed()
    ensures AllowedHost([])
  {
    assert forall at: nat :: !PortAt([], at);
  }

  lemma BracketedAllowed()
    ensures AllowedHost(BRACKETED)
  {
    assert PortAt(BRACKETED, 5);
    forall at: nat | PortAt(BRACKETED, at) ensures at == 5 {
      assert BRACKETED[5] == COLON;
    }
    assert BRACKETED[..5] == [OPEN_BRACKET, COLON, COLON, 0x31, CLOSE_BRACKET];
  }

  lemma SixthName()
    ensures NoNul(SIXTH) && SameNoCase(SIXTH, LOCALHOST6) && WithoutPort(SIXTH) == SIXTH
  {
    assert forall at: nat :: !PortAt(SIXTH, at);
    assert SIXTH == LOCALHOST6;
  }

  lemma SixthAllowed()
    ensures AllowedHost(SIXTH)
  {
    hide SameNoCase, NoNul, LooksLikeAddress, CString;
    SixthName();
    WholeString(SIXTH);
  }

  lemma ForeignPort()
    ensures WithoutPort(FOREIGN) == FOREIGN
  {
    assert forall at: nat :: !PortAt(FOREIGN, at);
  }

  lemma ForeignName()
    ensures !LooksLikeAddress(FOREIGN) && NoNul(FOREIGN) && |FOREIGN| == 16
  {
    hide Dots;
    assert !(0x30 <= FOREIGN[0] <= 0x39) && FOREIGN[0] != DOT && FOREIGN[0] != OPEN_BRACKET;
  }

  lemma ForeignRefused()
    ensures !AllowedHost(FOREIGN)
  {
    hide LooksLikeAddress, NoNul, CString;
    ForeignPort();
    ForeignName();
    WholeString(FOREIGN);
  }

  // ---------------------------------------------------------------- requests by their octets

  // " HTTP/1.1<CR><LF>"
  const VERSION_LINE: seq<byte> := [0x20, 0x48, 0x54, 0x54, 0x50, 0x2f, 0x31, 0x2e, 0x31, 0x0d, 0x0a]
  // "/json"
  const JSON: seq<byte> := [0x2f, 0x6a, 0x73, 0x6f, 0x6e]
  const SAMPLE_KEY: seq<byte> := AcceptSample.KEY

  // "GET /json HTTP/1.1<CR><LF>"
  const GET_LINE: seq<byte> := [
    0x47, 0x45, 0x54, 0x20, 0x2f, 0x6a, 0x73, 0x6f, 0x6e, 0x20, 0x48, 0x54, 0x54, 0x50, 0x2f, 0x31,
    0x2e, 0x31, 0x0d, 0x0a]
  // "Host: attacker.example<CR><LF>"
  const FOREIGN_LINE: seq<byte> := [
    0x48, 0x6f, 0x73, 0x74, 0x3a, 0x20, 0x61, 0x74, 0x74, 0x61, 0x63, 0x6b, 0x65, 0x72, 0x2e, 0x65,
    0x78, 0x61, 0x6d, 0x70, 0x6c, 0x65, 0x0d, 0x0a]
  // "Host: LocalHost:9229<CR><LF>"
  const LOCAL_LINE: seq<byte> := [
    0x48, 0x6f, 0x73, 0x74, 0x3a, 0x20, 0x4c, 0x6f, 0x63, 0x61, 0x6c, 0x48, 0x6f, 0x73, 0x74, 0x3a,
    0x39, 0x32, 0x32, 0x39, 0x0d, 0x0a]
  // "Upgrade: websocket<CR><LF>"
  const UPGRADE_LINE: seq<byte> := [
    0x55, 0x70, 0x67, 0x72, 0x61, 0x64, 0x65, 0x3a, 0x20, 0x77, 0x65, 0x62, 0x73, 0x6f, 0x63, 0x6b,
    0x65, 0x74, 0x0d, 0x0a]
  // "Connection: Upgrade<CR><LF>"
  const CONNECTION_LINE: seq<byte> := [
    0x43, 0x6f, 0x6e, 0x6e, 0x65, 0x63, 0x74, 0x69, 0x6f, 0x6e, 0x3a, 0x20, 0x55, 0x70, 0x67, 0x72,
    0x61, 0x64, 0x65, 0x0d, 0x0a]
  // "Sec-WebSocket-Key: "
  const KEY_COLON: seq<byte> := [
    0x53, 0x65, 0x63, 0x2d, 0x57, 0x65, 0x62, 0x53, 0x6f, 0x63, 0x6b, 0x65, 0x74, 0x2d, 0x4b, 0x65,
    0x79, 0x3a, 0x20]
  const KEY_LINE: seq<byte> := KEY_COLON + SAMPLE_KEY + CRLF

  /** A request is its line, its headers, an empty line, and what follows. */
  lemma TextIs(verb: nat, target: seq<byte>, hs: seq<Header>, tail: seq<byte>)
    requires verb < METHODS
    ensures RequestText(Asking(verb, target, hs), tail)
            == MethodName(verb) + [SP] + target + VERSION_LINE + (SectionText(hs) + (CRLF + tail))
  {
    hide SectionText;
    Nested(MethodName(verb), [SP], target, [SP, 0x48], TTP, [0x31, DOT, 0x31], CRLF, SectionText(hs) + (CRLF + tail));
    assert [SP, 0x48] + TTP + [0x31, DOT, 0x31] + CRLF == VERSION_LINE;
  }

  lemma Nested(a: seq<byte>, b: seq<byte>, c: seq<byte>, d: seq<byte>, e: seq<byte>, f: seq<byte>, g: seq<byte>,
               rest: seq<byte>)
    ensures a + (b + (c + (d + (e + (f + (g + rest)))))) == a + b + c + (d + e + f + g) + rest
  {
    Regroup(f, g, rest);
    Regroup(e, f + g, rest);
    Regroup(d, e + (f + g), rest);
    Regroup(c, d + (e + (f + g)), rest);
    Regroup(b, c + (d + (e + (f + g))), rest);
    Regroup(a, b + (c + (d + (e + (f + g)))), rest);
    assert a + (b + (c + (d + (e + (f + g))))) == a + b + c + (d + e + f + g);
  }

  lemma GetLine()
    ensures MethodName(HTTP_GET) + [SP] + JSON + VERSION_LINE == GET_LINE
  {
    assert MethodName(HTTP_GET) == [0x47, 0x45, 0x54];
  }

  lemma LineIs(name: seq<byte>, value: seq<byte>)
    requires value != []
    ensures HeaderText(OneLine(name, ONE_SPACE, value)) == name + [COLON, SP] + value + CRLF
  {
    assert FoldsText([]) == [] && value + CRLF + [] == value + CRLF;
  }

  lemma ForeignLine()
    ensures HeaderText(OneLine(HOST, ONE_SPACE, FOREIGN)) == FOREIGN_LINE
  {
    hide HeaderText;
    LineIs(HOST, FOREIGN);
    assert HOST + [COLON, SP] + FOREIGN + CRLF == FOREIGN_LINE;
  }

  lemma LocalLine()
    ensures HeaderText(OneLine(HOST, ONE_SPACE, LOCAL)) == LOCAL_LINE
  {
    hide HeaderText;
    LineIs(HOST, LOCAL);
    assert HOST + [COLON, SP] + LOCAL + CRLF == LOCAL_LINE;
  }

  lemma UpgradeLine()
    ensures HeaderText(OneLine(UPGRADE_NAME, ONE_SPACE, WEBSOCKET)) == UPGRADE_LINE
  {
    hide HeaderText;
    LineIs(UPGRADE_NAME, WEBSOCKET);
    assert UPGRADE_NAME + [COLON, SP] + WEBSOCKET + CRLF == UPGRADE_LINE;
  }

  lemma ConnectionLine()
    ensures HeaderText(OneLine(CONNECTION_NAME, ONE_SPACE, UPGRADE_NAME)) == CONNECTION_LINE
  {
    hide HeaderText;
    LineIs(CONNECTION_NAME, UPGRADE_NAME);
    assert CONNECTION_NAME + [COLON, SP] + UPGRADE_NAME + CRLF == CONNECTION_LINE;
  }

  lemma KeyLine()
    ensures HeaderText(OneLine(WS_KEY, ONE_SPACE, SAMPLE_KEY)) == KEY_LINE
  {
    hide HeaderText;
    LineIs(WS_KEY, SAMPLE_KEY);
    assert WS_KEY + [COLON, SP] == KEY_COLON;
  }

  /** A GET for another host is cancelled. */
  lemma ForeignCancelled()
    ensures Reads([GET_LINE + (FOREIGN_LINE + CRLF)]) == [HandshakeCancelled]
  {
    hide Reads;
    SampleValues();
    HostDecides(JSON, FOREIGN, []);
    ForeignText();
    SampleHosts();
  }

  lemma ForeignText()
    ensures MessageText(Fetch(JSON, FOREIGN, []), []) == GET_LINE + (FOREIGN_LINE + CRLF)
  {
    hide HeaderText;
    var h := OneLine(HOST, ONE_SPACE, FOREIGN);
    TextIs(HTTP_GET, JSON, [h] + [], []);
    GetLine();
    ForeignLine();
    assert [h] + [] == [h] && [h][1..] == [] && HeaderText(h) + [] == HeaderText(h) && CRLF + [] == CRLF;
  }

  lemma SampleValues()
    ensures IsPath(JSON) && IsTrimmed(FOREIGN) && IsTrimmed(LOCAL) && IsTrimmed(SAMPLE_KEY) && AreExtra([])
  {
  }

  /** An opening handshake for this machine is delivered as a socket upgrade, with what the client sent. */
  method SampleUpgrade(data: seq<byte>) returns (told: seq<Delivery>)
    requires data == GET_LINE + (LOCAL_LINE + (UPGRADE_LINE + (CONNECTION_LINE + (KEY_LINE + CRLF))))
    ensures told == [SocketUpgrade(LOCAL, JSON, SAMPLE_KEY)]
  {
    hide AllowedHost, IsPath, IsTrimmed, AreExtra;
    SampleValues();
    UpgradeText();
    SampleHosts();
    assert Flatten([data]) == data;
    assert AllServed([]) && Pipelined(0, []) && Deliver([]) == [];
    told := Upgrade([data], [], JSON, LOCAL, SAMPLE_KEY, [], []);
  }

  lemma UpgradeText()
    ensures MessageText(Opening(JSON, LOCAL, SAMPLE_KEY, []), [])
            == GET_LINE + (LOCAL_LINE + (UPGRADE_LINE + (CONNECTION_LINE + (KEY_LINE + CRLF))))
  {
    hide HeaderText;
    var hs := OwnHeaders(LOCAL, SAMPLE_KEY);
    TextIs(HTTP_GET, JSON, hs + [], []);
    GetLine();
    LocalLine();
    UpgradeLine();
    ConnectionLine();
    KeyLine();
    FourLines(hs);
    assert hs + [] == hs && CRLF + [] == CRLF;
  }

  lemma FourLines(hs: seq<Header>)
    requires |hs| == 4
    ensures SectionText(hs) + CRLF
            == HeaderText(hs[0]) + (HeaderText(hs[1]) + (HeaderText(hs[2]) + (HeaderText(hs[3]) + CRLF)))
  {
    hide HeaderText;
    var t, u, v := hs[1..], hs[2..], hs[3..];
    assert t[1..] == u && u[1..] == v && v[1..] == [];
    assert SectionText(v) == HeaderText(hs[3]) + [];
    assert SectionText(u) == HeaderText(hs[2]) + SectionText(v);
    assert SectionText(t) == HeaderText(hs[1]) + SectionText(u);
  }

  // ---------------------------------------------------------------- a body by its octets

  /** A POST with a Content-Length. */
  function Post(digits: seq<byte>, body: seq<byte>): Message {
    Message(Asks(HTTP_POST, OneLine(CONTENT_LENGTH, ONE_SPACE, digits)), Sized(body))
  }

  /** The digits from 0 to 9. */
  predicate AreDigits(s: seq<byte>) {
    forall i {:trigger s[i]} | 0 <= i < |s| :: 0x30 <= s[i] <= 0x39
  }

  lemma AllDigits(s: seq<byte>)
    requires AreDigits(s)
    ensures Digits(s) == |s| && s[..|s|] == s && Length(0, s) == Number(Dec, s)
  {
    LengthIs(0, s);
    assert s[..|s|] == s && 0 * Scale(Dec, |s|) == 0;
  }

  lemma DigitsAreValue(s: seq<byte>)
    requires AreDigits(s) && s != []
    ensures IsTrimmed(s) && (IsLength(0, s) <==> Number(Dec, s) <= UINT64_MAX)
  {
    AllDigits(s);
    forall i {:trigger s[i]} | 0 <= i < |s| ensures IsValueOctet(s[i]) {
      assert 0x30 <= s[i] <= 0x39;
    }
    assert 0x30 <= s[0] <= 0x39;
  }

  lemma PostHead(digits: seq<byte>, body: seq<byte>)
    requires AreDigits(digits) && digits != [] && Number(Dec, digits) == |body| <= UINT64_MAX
    ensures var q := Post(digits, body).head;
      && IsRequest(q) && Sets(q.headers, F_CONTENT_LENGTH) && !Sets(q.headers, F_CHUNKED) && !WantsUpgrade(q)
      && SectionAccepted(LineFields(Fresh(0), q), q.headers) && HeadCounter(0, q) == |body|
  {
    hide StateOf, IsName, IsLength, Length, IsTrimmed, AreDigits, Number;
    var h, q := OneLine(CONTENT_LENGTH, ONE_SPACE, digits), Post(digits, body).head;
    LengthName();
    AllDigits(digits);
    DigitsAreValue(digits);
    OwnLine(CONTENT_LENGTH, digits);
    AsksIs(HTTP_POST, h);
    SimpleFlags(CONTENT_LENGTH, ONE_SPACE, digits);
    OneHeader(LineFields(Fresh(0), q), h);
  }

  /** The octets behind its head, as many as the digits say by place value, are its body, and no more. */
  lemma PostTaken(digits: seq<byte>, body: seq<byte>, tail: seq<byte>) returns (d: Config, t: Telling)
    requires AreDigits(digits) && digits != [] && Number(Dec, digits) == |body| <= UINT64_MAX && body != []
    ensures Between(d) && d.fields.contentLength == 0
    ensures Told(START, d.out, Post(digits, body), t) && BodyOctets(t.body) == body
    ensures HttpRun(GO_ON, START, MessageText(Post(digits, body), tail)) == HttpRun(GO_ON, d, tail)
  {
    hide HttpRun, HttpReady;
    StartReady();
    PostHead(digits, body);
    d, t := MessageRead(START, Post(digits, body), tail);
  }

  // "POST / HTTP/1.1<CR><LF>"
  const POST_LINE: seq<byte> := [
    0x50, 0x4f, 0x53, 0x54, 0x20, 0x2f, 0x20, 0x48, 0x54, 0x54, 0x50, 0x2f, 0x31, 0x2e, 0x31, 0x0d,
    0x0a]
  // "content-length: 5<CR><LF>"
  const FIVE_LINE: seq<byte> := [
    0x63, 0x6f, 0x6e, 0x74, 0x65, 0x6e, 0x74, 0x2d, 0x6c, 0x65, 0x6e, 0x67, 0x74, 0x68, 0x3a, 0x20,
    0x35, 0x0d, 0x0a]
  // "hello"
  const HELLO: seq<byte> := [0x68, 0x65, 0x6c, 0x6c, 0x6f]

  lemma FiveIs()
    ensures AreDigits([0x35]) && Number(Dec, [0x35]) == 5
  {
    assert [0x35 as byte][..0] == [];
  }

  lemma FiveText(tail: seq<byte>)
    ensures MessageText(Post([0x35], HELLO), tail) == POST_LINE + (FIVE_LINE + (CRLF + (HELLO + tail)))
  {
    hide HeaderText;
    var h := OneLine(CONTENT_LENGTH, ONE_SPACE, [0x35]);
    TextIs(HTTP_POST, ROOT, [h], HELLO + tail);
    PostLine();
    FiveLine();
    assert [h][1..] == [] && HeaderText(h) + [] == HeaderText(h);
  }

  lemma PostLine()
    ensures MethodName(HTTP_POST) + [SP] + ROOT + VERSION_LINE == POST_LINE
  {
    assert MethodName(HTTP_POST) == [0x50, 0x4f, 0x53, 0x54];
  }

  lemma FiveLine()
    ensures HeaderText(OneLine(CONTENT_LENGTH, ONE_SPACE, [0x35])) == FIVE_LINE
  {
    hide HeaderText;
    LineIs(CONTENT_LENGTH, [0x35]);
    assert CONTENT_LENGTH + [COLON, SP] + [0x35] + CRLF == FIVE_LINE;
  }

  /** A POST of "hello" with a length of 5: five octets are its body, and what follows is the next request. */
  lemma FiveTaken(tail: seq<byte>) returns (d: Config, t: Telling)
    ensures Between(d) && d.fields.contentLength == 0 && BodyOctets(t.body) == HELLO
    ensures Told(START, d.out, Post([0x35], HELLO), t)
    ensures HttpRun(GO_ON, START, POST_LINE + (FIVE_LINE + (CRLF + (HELLO + tail)))) == HttpRun(GO_ON, d, tail)
  {
    hide HttpRun, HttpReady, AreDigits, Number, MessageText, Told;
    FiveIs();
    FiveText(tail);
    d, t := PostTaken([0x35], HELLO, tail);
  }
}
