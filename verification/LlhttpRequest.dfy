/** Whole requests: from the first octet of the method to the end of the message, or to the upgrade it asks for. */
module LlhttpRequest {
  import opened Bytes
  import opened LlhttpTypes
  import opened LlhttpTables
  import opened Llparse
  import opened LlparseBulk
  import opened LlhttpProgram
  import opened LlhttpChunks
  import opened LlhttpNames
  import opened LlhttpMethods
  import opened LlhttpTargets
  import opened LlhttpConnection
  import opened LlhttpHeaders
  import opened LlhttpTrailers

  // "HTTP/" behind its H
  const TTP: seq<byte> := [0x54, 0x54, 0x50, 0x2f]

  /** A request line and its headers, with the ends of its line and of its headers. */
  datatype Request = Request(verb: nat, target: seq<byte>, major: byte, minor: byte, eol: seq<byte>,
                             headers: seq<Header>, end: seq<byte>)

  /** A request over HTTP/1.1. */
  function Asking(verb: nat, target: seq<byte>, headers: seq<Header>): Request {
    Request(verb, target, 0x31, 0x31, CRLF, headers, CRLF)
  }

  predicate IsRequest(q: Request) {
    && q.verb < METHODS && IsTarget(q.verb, q.target)
    && Decimal(q.major).Some? && Decimal(q.minor).Some? && (q.eol == CRLF || q.eol == [LF])
    && AreLines(q.headers) && IsEnd(q.end)
  }

  /** The request line behind the method. */
  function LineText(q: Request, tail: seq<byte>): seq<byte> {
    [SP] + (q.target + ([SP, 0x48] + (TTP + ([q.major, DOT, q.minor] + (q.eol + tail)))))
  }

  /** The whole head of a request, and what follows it. */
  function RequestText(q: Request, tail: seq<byte>): seq<byte> {
    MethodName(q.verb) + LineText(q, SectionText(q.headers) + (q.end + tail))
  }

  // ---------------------------------------------------------------- the method

  /** Between two requests. */
  predicate Between(c: Config) {
    HttpReady(c) && c.place == Begin(Start) && c.fields.typ == HTTP_REQUEST && c.fields.flags == 0
  }

  /** Line breaks, whole or not. */
  predicate AreBreaks(s: seq<byte>) {
    forall i {:trigger s[i]} | 0 <= i < |s| :: s[i] == CR || s[i] == LF
  }

  lemma BreakTaken(c: Config, input: seq<byte>)
    requires Between(c) && |input| > 0 && (input[0] == CR || input[0] == LF)
    ensures HttpRun(GO_ON, c, input) == HttpRun(GO_ON, c, input[1..])
  {
    assert c.pending.None?;
    Take(GO_ON, c, input, c);
  }

  /** Empty lines in front of a request say nothing. */
  lemma {:induction false} EmptyLines(c: Config, s: seq<byte>, tail: seq<byte>)
    requires Between(c) && AreBreaks(s)
    ensures HttpRun(GO_ON, c, s + tail) == HttpRun(GO_ON, c, tail)
    decreases |s|
  {
    hide HttpRun, HttpReady;
    if |s| == 0 {
      assert s + tail == tail;
    } else {
      var more := s[1..];
      assert s[0] == CR || s[0] == LF;
      assert forall i {:trigger more[i]} | 0 <= i < |more| :: more[i] == s[i + 1];
      assert (s + tail)[1..] == more + tail;
      BreakTaken(c, s + tail);
      EmptyLines(c, more, tail);
    }
  }

  function Started(f: Fields): Fields {
    f.(finish := 2)
  }

  /** The first octet of a message. */
  lemma MessageStart(c: Config, input: seq<byte>)
    requires Between(c) && |input| > 0 && input[0] != CR && input[0] != LF
    ensures var f := Started(c.fields);
      var d := c.(place := Begin(StartReq(0)), fields := f, out := c.out + [Marked(MessageBegin, f)]);
      AtNode(d, 0) && HttpRun(GO_ON, c, input) == HttpRun(GO_ON, d, input)
  {
    assert c.pending.None?;
    Slide(GO_ON, c, input, c.(place := Begin(UpdateFinish)));
    var b := c.(place := Begin(OnMessageBegin), fields := Started(c.fields));
    Slide(GO_ON, c.(place := Begin(UpdateFinish)), input, b);
    MessageBegun(b, input);
  }

  lemma MessageBegun(c: Config, input: seq<byte>)
    requires HttpReady(c) && c.place == Begin(OnMessageBegin) && c.fields.typ == HTTP_REQUEST
    ensures var d := c.(place := Begin(StartReq(0)), out := c.out + [Marked(MessageBegin, c.fields)]);
      AtNode(d, 0) && HttpRun(GO_ON, c, input) == HttpRun(GO_ON, d, input)
  {
    var d := c.(place := Begin(LoadType), out := c.out + [Marked(MessageBegin, c.fields)]);
    Slide(GO_ON, c, input, d);
    Slide(GO_ON, d, input, d.(place := Begin(StartReq(0))));
  }

  lemma MethodText(m: nat)
    requires m < METHODS
    ensures |MethodName(m)| > 0 && MethodName(m)[0] != CR && MethodName(m)[0] != LF
  {
  }

  function WithVerb(f: Fields, m: nat): Fields {
    Started(f).(verb := m)
  }

  /** The method of a request. */
  lemma VerbRead(c: Config, m: nat, tail: seq<byte>)
    requires Between(c) && m < METHODS
    ensures var d := c.(place := Begin(ReqFirstSpaceBeforeUrl), fields := WithVerb(c.fields, m),
                        out := c.out + [Marked(MessageBegin, Started(c.fields))]);
      HttpReady(d) && HttpRun(GO_ON, c, MethodName(m) + tail) == HttpRun(GO_ON, d, tail)
  {
    hide HttpRun, HttpReady;
    MethodText(m);
    MessageStart(c, MethodName(m) + tail);
    var f := Started(c.fields);
    var d := c.(place := Begin(StartReq(0)), fields := f, out := c.out + [Marked(MessageBegin, f)]);
    var e := NameHeard(GO_ON, d, Accept(m), tail);
    Slide(GO_ON, e, tail, e.(place := Begin(ReqFirstSpaceBeforeUrl), fields := WithVerb(c.fields, m)));
  }

  // ---------------------------------------------------------------- the version

  lemma VersionWord(c: Config, tail: seq<byte>)
    requires HttpReady(c) && c.place == Line(ReqHttpStart)
    ensures var d := c.(place := Line(ReqHttpMajor));
      HttpReady(d) && HttpRun(GO_ON, c, [0x48] + (TTP + tail)) == HttpRun(GO_ON, d, tail)
  {
    assert c.pending.None? && ([0x48] + (TTP + tail))[1..] == TTP + tail;
    var d := c.(place := Line(ReqHttpStart1));
    Take(GO_ON, c, [0x48] + (TTP + tail), d);
    LlhttpWellFormed();
    assert LLHTTP.node(d.place) == LineNode(ReqHttpStart1) && LLHTTP.word(12) == TTP;
    MatchHit(LLHTTP, GO_ON, d, TTP, tail);
  }

  function WithVersion(f: Fields, major: byte, minor: byte): Fields
    requires Decimal(major).Some? && Decimal(minor).Some?
  {
    f.(httpMajor := Decimal(major).value, httpMinor := Decimal(minor).value)
  }

  lemma MajorRead(c: Config, x: byte, tail: seq<byte>)
    requires HttpReady(c) && c.place == Line(ReqHttpMajor) && Decimal(x).Some?
    ensures var d := c.(place := Line(ReqHttpMinor), fields := c.fields.(httpMajor := Decimal(x).value));
      HttpReady(d) && HttpRun(GO_ON, c, [x, DOT] + tail) == HttpRun(GO_ON, d, tail)
  {
    var m := Decimal(x).value;
    var input := [x, DOT] + tail;
    assert c.pending.None? && input[1..] == [DOT] + tail && ([DOT] + tail)[1..] == tail;
    Take(GO_ON, c, input, c.(place := Line(StoreHttpMajor(m))));
    var e := c.(place := Line(ReqHttpDot), fields := c.fields.(httpMajor := m));
    Slide(GO_ON, c.(place := Line(StoreHttpMajor(m))), [DOT] + tail, e);
    Take(GO_ON, e, [DOT] + tail, e.(place := Line(ReqHttpMinor)));
  }

  lemma MinorRead(c: Config, x: byte, tail: seq<byte>)
    requires HttpReady(c) && c.place == Line(ReqHttpMinor) && Decimal(x).Some?
    ensures var d := c.(place := Line(ReqHttpEnd), fields := c.fields.(httpMinor := Decimal(x).value));
      HttpReady(d) && HttpRun(GO_ON, c, [x] + tail) == HttpRun(GO_ON, d, tail)
  {
    var m := Decimal(x).value;
    assert c.pending.None? && ([x] + tail)[1..] == tail;
    Take(GO_ON, c, [x] + tail, c.(place := Line(StoreHttpMinor(m))));
    Slide(GO_ON, c.(place := Line(StoreHttpMinor(m))), tail,
          c.(place := Line(ReqHttpEnd), fields := c.fields.(httpMinor := m)));
  }

  lemma LineEnd(c: Config, eol: seq<byte>, tail: seq<byte>)
    requires HttpReady(c) && c.place == Line(ReqHttpEnd) && (eol == CRLF || eol == [LF])
    ensures var d := c.(place := Field(HeaderFieldStart));
      HttpReady(d) && HttpRun(GO_ON, c, eol + tail) == HttpRun(GO_ON, d, tail)
  {
    hide HttpRun, HttpReady;
    if eol == CRLF {
      assert eol + tail == [CR] + ([LF] + tail);
      LineCr(c, [LF] + tail);
      LineLf(c.(place := Line(ReqHttpEnd1)), tail);
    } else {
      LineLf(c, tail);
    }
  }

  lemma LineCr(c: Config, tail: seq<byte>)
    requires HttpReady(c) && c.place == Line(ReqHttpEnd)
    ensures var d := c.(place := Line(ReqHttpEnd1));
      HttpReady(d) && HttpRun(GO_ON, c, [CR] + tail) == HttpRun(GO_ON, d, tail)
  {
    assert c.pending.None? && ([CR] + tail)[1..] == tail;
    Take(GO_ON, c, [CR] + tail, c.(place := Line(ReqHttpEnd1)));
  }

  lemma LineLf(c: Config, tail: seq<byte>)
    requires HttpReady(c) && (c.place == Line(ReqHttpEnd) || c.place == Line(ReqHttpEnd1))
    ensures var d := c.(place := Field(HeaderFieldStart));
      HttpReady(d) && HttpRun(GO_ON, c, [LF] + tail) == HttpRun(GO_ON, d, tail)
  {
    assert c.pending.None? && ([LF] + tail)[1..] == tail;
    Take(GO_ON, c, [LF] + tail, c.(place := Field(HeaderFieldStart)));
  }

  /** The version of a request and the end of its line. */
  lemma VersionRead(c: Config, major: byte, minor: byte, eol: seq<byte>, tail: seq<byte>)
    requires HttpReady(c) && c.place == Line(ReqHttpStart) && Decimal(major).Some? && Decimal(minor).Some?
    requires eol == CRLF || eol == [LF]
    ensures var d := c.(place := Field(HeaderFieldStart), fields := WithVersion(c.fields, major, minor));
      && HttpReady(d)
      && HttpRun(GO_ON, c, [0x48] + (TTP + ([major, DOT, minor] + (eol + tail)))) == HttpRun(GO_ON, d, tail)
  {
    hide HttpRun, HttpReady;
    var end := eol + tail;
    assert [major, DOT, minor] + end == [major, DOT] + ([minor] + end);
    VersionWord(c, [major, DOT] + ([minor] + end));
    MajorRead(c.(place := Line(ReqHttpMajor)), major, [minor] + end);
    var d := c.(place := Line(ReqHttpMinor), fields := c.fields.(httpMajor := Decimal(major).value));
    MinorRead(d, minor, end);
    LineEnd(d.(place := Line(ReqHttpEnd), fields := WithVersion(c.fields, major, minor)), eol, tail);
  }

  // ---------------------------------------------------------------- the head of a request

  /** The fields behind the request line. */
  function LineFields(f: Fields, q: Request): Fields
    requires IsRequest(q)
  {
    WithVersion(WithVerb(f, q.verb), q.major, q.minor)
  }

  function LineEvents(f: Fields, q: Request): seq<Event> {
    [Marked(MessageBegin, Started(f)), Span(UrlSpan, q.target)]
  }

  lemma LineRead(c: Config, q: Request, tail: seq<byte>)
    requires Between(c) && IsRequest(q)
    ensures var d := Config(Field(HeaderFieldStart), LineFields(c.fields, q), None, c.out + LineEvents(c.fields, q));
      HttpReady(d) && HttpRun(GO_ON, c, MethodName(q.verb) + LineText(q, tail)) == HttpRun(GO_ON, d, tail)
  {
    hide HttpRun, HttpReady;
    var version := [0x48] + (TTP + ([q.major, DOT, q.minor] + (q.eol + tail)));
    assert LineText(q, tail) == [SP] + (q.target + ([SP] + version));
    VerbRead(c, q.verb, LineText(q, tail));
    var d := c.(place := Begin(ReqFirstSpaceBeforeUrl), fields := WithVerb(c.fields, q.verb),
                out := c.out + [Marked(MessageBegin, Started(c.fields))]);
    TargetNoEnd(q.verb, q.target);
    TargetRead(d, q.target, version);
    var e := Config(Line(ReqHttpStart), d.fields, None, d.out + [Span(UrlSpan, q.target)]);
    VersionRead(e, q.major, q.minor, q.eol, tail);
    assert c.out + LineEvents(c.fields, q) == e.out;
  }

  /** The fields behind the headers. */
  function HeadFields(f: Fields, q: Request): Fields
    requires IsRequest(q)
  {
    SectionFields(LineFields(f, q), q.headers)
  }

  function HeadEvents(f: Fields, q: Request): seq<Event> {
    LineEvents(f, q) + SectionEvents(q.headers)
  }

  /** From the first octet of a request to the empty line behind its headers: exactly the heads whose headers are accepted
      are reported, in order, and have the effect of their headers. */
  lemma HeadRead(c: Config, q: Request, tail: seq<byte>)
    requires Between(c) && IsRequest(q)
    ensures var o := HttpRun(GO_ON, c, RequestText(q, tail));
      if SectionAccepted(LineFields(c.fields, q), q.headers) then
        var d := Config(Msg(TestFlags), HeadFields(c.fields, q), None, c.out + HeadEvents(c.fields, q));
        HttpReady(d) && o == HttpRun(GO_ON, d, tail)
      else BadHeader(o)
  {
    hide HttpRun, HttpReady;
    LineRead(c, q, SectionText(q.headers) + (q.end + tail));
    var d := Config(Field(HeaderFieldStart), LineFields(c.fields, q), None, c.out + LineEvents(c.fields, q));
    assert (q.end + tail)[0] == q.end[0];
    SectionRead(GO_ON, d, q.headers, q.end + tail);
    if SectionAccepted(LineFields(c.fields, q), q.headers) {
      HeadersEnd(AfterSection(d, q.headers), q.end, tail);
      Regroup(c.out, LineEvents(c.fields, q), SectionEvents(q.headers));
    }
  }

  // ---------------------------------------------------------------- the end of the headers

  /** The request asks for an upgrade: it is a CONNECT, or has an Upgrade header and the word in a Connection header. */
  ghost predicate WantsUpgrade(q: Request) {
    q.verb == HTTP_CONNECT || (Sets(q.headers, F_UPGRADE) && Sets(q.headers, F_CONNECTION_UPGRADE))
  }

  /** What is known of the fields behind the headers. */
  lemma HeadSays(f: Fields, q: Request)
    requires IsRequest(q) && f.flags == 0 && f.typ == HTTP_REQUEST
    ensures var g := HeadFields(f, q);
      && g.typ == HTTP_REQUEST && g.verb == q.verb && g.flags & F_TRAILING == 0 && g.flags & F_SKIPBODY == 0
      && (g.flags & F_CHUNKED != 0 <==> Sets(q.headers, F_CHUNKED))
      && (g.flags & F_CONTENT_LENGTH != 0 <==> Sets(q.headers, F_CONTENT_LENGTH))
      && (BeforeHeadersComplete(g) == if WantsUpgrade(q) then 1 else 0)
  {
    var l := LineFields(f, q);
    SectionLeaves(l, q.headers);
    SectionBits(l, q.headers);
    TwoBits(HeadFields(f, q).flags);
    SectionFlags(l, q.headers, F_CHUNKED);
    SectionFlags(l, q.headers, F_CONTENT_LENGTH);
    SectionFlags(l, q.headers, F_UPGRADE);
    SectionFlags(l, q.headers, F_CONNECTION_UPGRADE);
  }

  lemma ZeroDigit(c: byte)
    requires Decimal(c).Some?
    ensures Decimal(c).value > 0 <==> c != 0x30
  {
  }

  /** A connection is kept for another request unless the headers say close; before HTTP/1.1 only if they say
      keep-alive. */
  lemma KeepAliveSays(f: Fields, q: Request)
    requires IsRequest(q) && f.flags == 0 && f.typ == HTTP_REQUEST
    ensures ShouldKeepAlive(HeadFields(f, q)) <==>
      if q.major != 0x30 && q.minor != 0x30 then !Sets(q.headers, F_CONNECTION_CLOSE)
      else Sets(q.headers, F_CONNECTION_KEEP_ALIVE)
  {
    var l := LineFields(f, q);
    ZeroDigit(q.major);
    ZeroDigit(q.minor);
    assert l.flags == 0 && l.typ == HTTP_REQUEST;
    SectionLeaves(l, q.headers);
    SectionFlags(l, q.headers, F_CONNECTION_CLOSE);
    SectionFlags(l, q.headers, F_CONNECTION_KEEP_ALIVE);
  }

  lemma TwoBits(flags: bv8)
    ensures flags & (F_TRAILING | F_SKIPBODY) == 0 <==> flags & F_TRAILING == 0 && flags & F_SKIPBODY == 0
    ensures flags & (F_CONTENT_LENGTH | F_CHUNKED) == F_CONTENT_LENGTH | F_CHUNKED
            <==> flags & F_CONTENT_LENGTH != 0 && flags & F_CHUNKED != 0
  {
  }

  /** Behind the empty line the caller hears of the headers, and sees whether the request is an upgrade. */
  lemma HeadersHeard(c: Config, u: nat, tail: seq<byte>)
    requires HttpReady(c) && c.place == Msg(TestFlags) && u == BeforeHeadersComplete(c.fields)
    requires c.fields.flags & F_TRAILING == 0
    requires c.fields.flags & F_CONTENT_LENGTH == 0 || c.fields.flags & F_CHUNKED == 0
    ensures var f := c.fields.(upgrade := u);
      var d := c.(place := Msg(AfterHeadersComplete), fields := f, out := c.out + [Marked(HeadersComplete, f)]);
      HttpReady(d) && HttpRun(GO_ON, c, tail) == HttpRun(GO_ON, d, tail)
  {
    TwoBits(c.fields.flags);
    var f := c.fields.(upgrade := u);
    var d := c.(place := Msg(OnHeadersComplete), fields := f);
    Slide(GO_ON, c, tail, d);
    Slide(GO_ON, d, tail, d.(place := Msg(AfterHeadersComplete), out := c.out + [Marked(HeadersComplete, f)]));
  }

  /** The parser behind the headers of a request. */
  ghost function Headed(c: Config, q: Request): Config
    requires IsRequest(q)
  {
    var f := HeadFields(c.fields, q).(upgrade := if WantsUpgrade(q) then 1 else 0);
    Config(Msg(AfterHeadersComplete), f, None, c.out + HeadEvents(c.fields, q) + [Marked(HeadersComplete, f)])
  }

  /** The head of a request is accepted. */
  ghost predicate HeadAccepted(f: Fields, q: Request) {
    && IsRequest(q) && SectionAccepted(LineFields(f, q), q.headers)
    && !(Sets(q.headers, F_CONTENT_LENGTH) && Sets(q.headers, F_CHUNKED))
  }

  /** From the first octet of a request to the choice of how its body is read. */
  lemma HeadDone(c: Config, q: Request, tail: seq<byte>)
    requires Between(c) && HeadAccepted(c.fields, q)
    ensures var d := Headed(c, q);
      HttpReady(d) && HttpRun(GO_ON, c, RequestText(q, tail)) == HttpRun(GO_ON, d, tail)
  {
    hide HttpRun, HttpReady;
    HeadRead(c, q, tail);
    HeadSays(c.fields, q);
    var d := Config(Msg(TestFlags), HeadFields(c.fields, q), None, c.out + HeadEvents(c.fields, q));
    HeadersHeard(d, if WantsUpgrade(q) then 1 else 0, tail);
  }

  // ---------------------------------------------------------------- whole requests

  /** The headers announce no body. */
  ghost predicate NoBody(f: Fields, q: Request)
    requires IsRequest(q)
  {
    !Sets(q.headers, F_CHUNKED) && (!Sets(q.headers, F_CONTENT_LENGTH) || HeadFields(f, q).contentLength == 0)
  }

  /** A message that is complete with its headers. */
  lemma MessageDone(c: Config, tail: seq<byte>)
    requires HttpReady(c) && c.place == Msg(OnMessageComplete)
    ensures var d := NextMessage(c);
      HttpReady(d) && HttpRun(GO_ON, c, tail) == HttpRun(GO_ON, d, tail)
  {
    var d := c.(place := Msg(AfterMessageComplete), out := c.out + [Marked(MessageComplete, c.fields)]);
    assert c.pending.None?;
    Slide(GO_ON, c, tail, d);
    Slide(GO_ON, d, tail, NextMessage(c));
  }

  /** A request whose headers announce no body, and that does not stop the parser: it is no upgrade, or it is no CONNECT
      and the counter is not zero. */
  predicate TakenAsPlain(f: Fields) {
    && f.typ == HTTP_REQUEST && f.flags & F_CHUNKED == 0 && f.flags & F_SKIPBODY == 0
    && (f.flags & F_CONTENT_LENGTH == 0 || f.contentLength == 0)
    && (f.upgrade == 0 || (f.verb != HTTP_CONNECT && f.contentLength > 0))
  }

  lemma TakenSo(f: Fields)
    requires TakenAsPlain(f)
    ensures AfterHeaders(f) == Msg(OnMessageComplete)
  {
  }

  lemma AfterHeadersOn(c: Config, tail: seq<byte>)
    requires HttpReady(c) && c.place == Msg(AfterHeadersComplete)
    ensures var d := c.(place := AfterHeaders(c.fields));
      HttpReady(d) && HttpRun(GO_ON, c, tail) == HttpRun(GO_ON, d, tail)
  {
    assert c.pending.None?;
    Slide(GO_ON, c, tail, c.(place := AfterHeaders(c.fields)));
  }

  lemma NextReady(c: Config)
    requires HttpReady(NextMessage(c)) && c.fields.typ == HTTP_REQUEST
    ensures Between(NextMessage(c))
  {
  }

  lemma TakenOn(c: Config, tail: seq<byte>)
    requires HttpReady(c) && c.place == Msg(AfterHeadersComplete) && TakenAsPlain(c.fields)
    ensures var d := NextMessage(c);
      Between(d) && HttpRun(GO_ON, c, tail) == HttpRun(GO_ON, d, tail)
  {
    hide HttpRun, HttpReady;
    TakenSo(c.fields);
    AfterHeadersOn(c, tail);
    MessageDone(c.(place := Msg(OnMessageComplete)), tail);
    NextReady(c);
  }

  /** A request that announces no body and is no upgrade: everything in it is reported, in order, and the parser is ready
      for the next one. */
  lemma PlainRequest(c: Config, q: Request, tail: seq<byte>)
    requires Between(c) && HeadAccepted(c.fields, q) && NoBody(c.fields, q) && !WantsUpgrade(q)
    ensures var d := NextMessage(Headed(c, q));
      Between(d) && HttpRun(GO_ON, c, RequestText(q, tail)) == HttpRun(GO_ON, d, tail)
  {
    hide HttpRun, HttpReady;
    HeadDone(c, q, tail);
    HeadSays(c.fields, q);
    TakenOn(Headed(c, q), tail);
  }

  /** The parser stops for an upgrade, ready for the caller to take the rest of the input. */
  ghost predicate StopsForUpgrade(o: Outcome, d: Config, tail: seq<byte>) {
    o == Stopped(HPE_PAUSED_UPGRADE, PauseOnConnectUpgrade, d, tail)
  }

  lemma UpgradePauses(c: Config, tail: seq<byte>)
    requires HttpReady(c) && c.place == Msg(AfterHeadersComplete) && c.fields.upgrade != 0
    requires c.fields.verb == HTTP_CONNECT || (c.fields.flags & F_CHUNKED == 0 && c.fields.contentLength == 0)
    ensures StopsForUpgrade(HttpRun(GO_ON, c, tail), Upgrading(c), tail)
  {
    hide HttpRun, HttpReady;
    AfterHeadersOn(c, tail);
    UpgradeTold(c.(place := Msg(OnMessageComplete1)), tail);
    PausesHere(c.(place := Msg(Pause1), out := c.out + [Marked(MessageComplete, c.fields)]), tail);
  }

  lemma UpgradeTold(c: Config, tail: seq<byte>)
    requires HttpReady(c) && c.place == Msg(OnMessageComplete1)
    ensures var d := c.(place := Msg(Pause1), out := c.out + [Marked(MessageComplete, c.fields)]);
      HttpReady(d) && HttpRun(GO_ON, c, tail) == HttpRun(GO_ON, d, tail)
  {
    Slide(GO_ON, c, tail, c.(place := Msg(Pause1), out := c.out + [Marked(MessageComplete, c.fields)]));
  }

  /** An upgrade request that announces no body and finds nothing in the counter: everything in it is reported, in order,
      and not one octet behind it is taken. */
  lemma UpgradeRequest(c: Config, q: Request, tail: seq<byte>)
    requires Between(c) && HeadAccepted(c.fields, q) && WantsUpgrade(q)
    requires !Sets(q.headers, F_CHUNKED) && HeadFields(c.fields, q).contentLength == 0
    ensures StopsForUpgrade(HttpRun(GO_ON, c, RequestText(q, tail)), Upgrading(Headed(c, q)), tail)
  {
    hide HttpRun, HttpReady;
    HeadDone(c, q, tail);
    HeadSays(c.fields, q);
    UpgradePauses(Headed(c, q), tail);
  }

  /** A caller that resumes behind an upgrade is at the start of the next message. */
  lemma Resumed(c: Config, tail: seq<byte>)
    requires HttpReady(Upgrading(c))
    ensures HttpReady(NextMessage(c)) && HttpRun(GO_ON, Upgrading(c), tail) == HttpRun(GO_ON, NextMessage(c), tail)
  {
    var d := Upgrading(c);
    assert d.pending.None?;
    Slide(GO_ON, d, tail, NextMessage(c));
  }

  /** A CONNECT stops the parser right behind its headers whatever body they announce. When the caller goes on, the length
      that they announce is still in the counter. */
  lemma ConnectRequest(c: Config, q: Request, tail: seq<byte>, more: seq<byte>)
    requires Between(c) && HeadAccepted(c.fields, q) && q.verb == HTTP_CONNECT
    ensures var d := Upgrading(Headed(c, q)); var e := NextMessage(Headed(c, q));
      && StopsForUpgrade(HttpRun(GO_ON, c, RequestText(q, tail)), d, tail)
      && Between(e) && HttpRun(GO_ON, d, more) == HttpRun(GO_ON, e, more)
      && e.fields.contentLength == HeadFields(c.fields, q).contentLength
  {
    hide HttpRun, HttpReady;
    HeadDone(c, q, tail);
    HeadSays(c.fields, q);
    UpgradePauses(Headed(c, q), tail);
    HttpStays(GO_ON, c, RequestText(q, tail));
    Resumed(Headed(c, q), more);
    NextReady(Headed(c, q));
  }

  lemma HttpStays(r: Reply, c: Config, input: seq<byte>)
    requires HttpReady(c)
    ensures HttpReady(HttpRun(r, c, input).c)
  {
  }

  /** With something left in the counter an upgrade request that announces no body is taken for one that has a body, and
      the parser goes on to the next message. */
  lemma UpgradeMissed(c: Config, q: Request, tail: seq<byte>)
    requires Between(c) && HeadAccepted(c.fields, q) && WantsUpgrade(q) && q.verb != HTTP_CONNECT
    requires !Sets(q.headers, F_CHUNKED) && !Sets(q.headers, F_CONTENT_LENGTH) && c.fields.contentLength > 0
    ensures var d := NextMessage(Headed(c, q));
      Between(d) && HttpRun(GO_ON, c, RequestText(q, tail)) == HttpRun(GO_ON, d, tail)
  {
    hide HttpRun, HttpReady;
    HeadDone(c, q, tail);
    HeadSays(c.fields, q);
    SectionLeaves(LineFields(c.fields, q), q.headers);
    TakenOn(Headed(c, q), tail);
  }

  /** Exactly when the counter is zero does the parser stop behind an upgrade request that announces no body, unless it is
      a CONNECT. */
  lemma UpgradeIff(c: Config, q: Request)
    requires Between(c) && HeadAccepted(c.fields, q) && WantsUpgrade(q)
    requires !Sets(q.headers, F_CHUNKED) && !Sets(q.headers, F_CONTENT_LENGTH)
    ensures HttpRun(GO_ON, c, RequestText(q, [])).Stopped? <==> c.fields.contentLength == 0 || q.verb == HTTP_CONNECT
  {
    hide HttpRun, HttpReady;
    SectionLeaves(LineFields(c.fields, q), q.headers);
    if q.verb == HTTP_CONNECT {
      ConnectRequest(c, q, [], []);
    } else if c.fields.contentLength == 0 {
      UpgradeRequest(c, q, []);
    } else {
      UpgradeMissed(c, q, []);
      Waits(NextMessage(Headed(c, q)));
    }
  }

  /** Between two requests the parser waits for more. */
  lemma Waits(c: Config)
    requires Between(c)
    ensures HttpRun(GO_ON, c, []) == Running(c)
  {
    HttpOn(GO_ON, c, []);
  }

  /** A request with a Content-Length N > 0, an upgrade or not: its body is the next N octets. */
  lemma SizedRequest(c: Config, q: Request, body: seq<byte>, tail: seq<byte>)
    requires Between(c) && HeadAccepted(c.fields, q) && q.verb != HTTP_CONNECT
    requires Sets(q.headers, F_CONTENT_LENGTH) && HeadFields(c.fields, q).contentLength == |body| > 0
    ensures var h := Headed(c, q);
      var d := h.(place := Msg(OnMessageComplete2), fields := h.fields.(contentLength := 0),
                  out := h.out + [Span(BodySpan, body)]);
      Finishes(HttpRun(GO_ON, c, RequestText(q, body + tail)), d, tail)
  {
    hide HttpRun, HttpReady;
    HeadDone(c, q, body + tail);
    HeadSays(c.fields, q);
    SizedBody(Headed(c, q), body, tail);
  }

  /** A chunked request, an upgrade or not: its body is the octets of the chunks. */
  lemma ChunkedRequest(c: Config, q: Request, chunks: seq<Chunk>, last: Chunk, trailers: seq<Header>, tail: seq<byte>)
    requires Between(c) && HeadAccepted(c.fields, q) && q.verb != HTTP_CONNECT && Sets(q.headers, F_CHUNKED)
    requires IsChunkedBody(HeadFields(c.fields, q), chunks, last, trailers)
    ensures var h := Headed(c, q); var e := ChunkedEnd(h, chunks, trailers);
      && Finishes(HttpRun(GO_ON, c, RequestText(q, ChunkedText(chunks, last, trailers, tail))), e, tail)
      && BodyOctets(e.out) == BodyOctets(h.out) + DataOf(chunks)
  {
    hide HttpRun, HttpReady;
    HeadDone(c, q, ChunkedText(chunks, last, trailers, tail));
    HeadSays(c.fields, q);
    var h := Headed(c, q);
    TrailerAlike(HeadFields(c.fields, q), h.fields, trailers);
    ChunkedBody(h, chunks, last, trailers, tail);
    ChunkedHeard(ChunkHeader, h, chunks, trailers);
  }

  /** Only flags and length matter to a header section. */
  lemma {:induction false} SectionAlike(f: Fields, g: Fields, hs: seq<Header>)
    requires f.flags == g.flags && f.contentLength == g.contentLength
    ensures SectionAccepted(f, hs) <==> SectionAccepted(g, hs)
    ensures SectionFields(f, hs).contentLength == SectionFields(g, hs).contentLength
    ensures SectionFields(f, hs).flags == SectionFields(g, hs).flags
    decreases |hs|
  {
    if |hs| > 0 {
      SectionAlike(HeaderEffect(f, hs[0]), HeaderEffect(g, hs[0]), hs[1..]);
    }
  }

  lemma TrailerAlike(f: Fields, g: Fields, trailers: seq<Header>)
    requires f.flags == g.flags
    ensures SectionAccepted(AtTrailer(f), trailers) <==> SectionAccepted(AtTrailer(g), trailers)
    ensures SectionFields(AtTrailer(f), trailers).contentLength == SectionFields(AtTrailer(g), trailers).contentLength
  {
    SectionAlike(AtTrailer(f), AtTrailer(g), trailers);
  }

  /** The error for a message with a length and chunks. */
  predicate BothRefused(o: Outcome, tail: seq<byte>) {
    o.Stopped? && o.code == 4 && o.reason == ContentLengthCannotBePresentWithChunkedEncoding && o.rest == tail
  }

  lemma FramingRefused(c: Config, tail: seq<byte>)
    requires HttpReady(c) && c.place == Msg(TestFlags) && c.fields.flags & F_TRAILING == 0
    requires c.fields.flags & F_CONTENT_LENGTH != 0 && c.fields.flags & F_CHUNKED != 0
    ensures BothRefused(HttpRun(GO_ON, c, tail), tail)
  {
    TwoBits(c.fields.flags);
    var e := c.(place := Fail(4, ContentLengthCannotBePresentWithChunkedEncoding));
    Slide(GO_ON, c, tail, e);
    Fails(GO_ON, e, tail);
  }

  /** A length and chunks in one message are an error, whatever else it holds. */
  lemma BothFramings(c: Config, q: Request, tail: seq<byte>)
    requires Between(c) && IsRequest(q) && SectionAccepted(LineFields(c.fields, q), q.headers)
    requires Sets(q.headers, F_CONTENT_LENGTH) && Sets(q.headers, F_CHUNKED)
    ensures BothRefused(HttpRun(GO_ON, c, RequestText(q, tail)), tail)
  {
    hide HttpRun, HttpReady;
    HeadRead(c, q, tail);
    HeadSays(c.fields, q);
    FramingRefused(Config(Msg(TestFlags), HeadFields(c.fields, q), None, c.out + HeadEvents(c.fields, q)), tail);
  }
}
