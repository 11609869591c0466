/** From octets to deliveries: what an inspector connection makes of the requests a client sends, up to the upgrade. */
module HttpRequests {
  import opened Bytes
  import opened LlhttpTypes
  import opened LlhttpTables
  import opened Llparse
  import opened LlhttpProgram
  import opened LlhttpChunks
  import opened LlhttpHeaders
  import opened LlhttpNames
  import opened LlhttpRequest
  import opened LlhttpTrailers
  import opened LlhttpMessage
  import opened LlhttpMethods
  import opened LlhttpTargets
  import opened LlhttpValues
  import opened LlhttpConnection
  import opened HttpText
  import opened HttpHandler

  // ---------------------------------------------------------------- one request gathered

  /** The lines of a value as they are reported, end to end. */
  function LinesTold(n: nat, folds: seq<seq<byte>>): seq<byte>
    decreases |folds|
  {
    if |folds| == 0 then [] else folds[0] + ExtraOf(n, folds[0]) + LinesTold(PartState(n, folds[0]), folds[1..])
  }

  /** The value of a header as the handler sees it. */
  function ToldOf(h: Header): seq<byte> {
    if h.value == [] then [] else LinesTold(StateOf(h.name), [h.value] + h.folds)
  }

  /** The headers of a request as the handler stores them: values of the same name one behind the other. */
  function HeaderMap(m: map<seq<byte>, seq<byte>>, hs: seq<Header>): map<seq<byte>, seq<byte>>
    decreases |hs|
  {
    if |hs| == 0 then m
    else
      var name := hs[0].name;
      HeaderMap(m[name := ValueOf(m, name) + ToldOf(hs[0])], hs[1..])
  }

  /** The next name starts afresh. */
  predicate NameFresh(g: Gathered) {
    g.parsingValue || g.currentHeader == []
  }

  lemma GatherLine(g: Gathered, octets: seq<byte>, more: seq<byte>)
    ensures Gather(Gather(g, ValueSpan, octets), ValueSpan, more) == Gather(g, ValueSpan, octets + more)
    ensures Gather(g, ValueSpan, octets).parsingValue
  {
    GatherTwice(g, ValueSpan, octets, more);
  }

  /** The lines of a value add up. */
  lemma {:induction false} LinesGathered(out: seq<Event>, n: nat, folds: seq<seq<byte>>)
    requires |folds| > 0
    ensures GatherEvents(out + LinesEvents(n, folds)) == Gather(GatherEvents(out), ValueSpan, LinesTold(n, folds))
    decreases |folds|
  {
    var octets, m := folds[0] + ExtraOf(n, folds[0]), PartState(n, folds[0]);
    var told := Span(ValueSpan, octets);
    GatherOneMore(out, told);
    if |folds| == 1 {
      assert folds[1..] == [] && octets + [] == octets && [told] + [] == [told];
      assert LinesEvents(n, folds) == [told] + LinesEvents(m, []) && LinesTold(n, folds) == octets + LinesTold(m, []);
    } else {
      Regroup(out, [told], LinesEvents(m, folds[1..]));
      LinesGathered(out + [told], m, folds[1..]);
      GatherLine(GatherEvents(out), octets, LinesTold(m, folds[1..]));
    }
  }

  lemma ValueGathered(out: seq<Event>, h: Header)
    ensures GatherEvents(out + ValueEvents(StateOf(h.name), h.value, h.folds))
            == Gather(GatherEvents(out), ValueSpan, ToldOf(h))
  {
    if h.value == [] {
      GatherOneMore(out, Span(ValueSpan, []));
    } else {
      LinesGathered(out, StateOf(h.name), [h.value] + h.folds);
    }
  }

  lemma HeaderGathered(out: seq<Event>, h: Header)
    requires NameFresh(GatherEvents(out))
    ensures var g := GatherEvents(out); var d := GatherEvents(out + HeaderEvents(h));
      && d == g.(parsingValue := true, currentHeader := h.name, headers := HeaderMap(g.headers, [h]))
      && NameFresh(d)
  {
    var name := Span(FieldSpan, h.name);
    GatherOneMore(out, name);
    ValueGathered(out + [name], h);
    Regroup(out, [name], ValueEvents(StateOf(h.name), h.value, h.folds));
    assert [] + h.name == h.name;
    assert [h][1..] == [];
  }

  /** A gathered header section. */
  ghost predicate Sectioned(g: Gathered, d: Gathered, hs: seq<Header>) {
    NameFresh(d) && d.headers == HeaderMap(g.headers, hs) && d.path == g.path && d.events == g.events
  }

  lemma {:induction false} SectionGathered(out: seq<Event>, hs: seq<Header>)
    requires NameFresh(GatherEvents(out))
    ensures Sectioned(GatherEvents(out), GatherEvents(out + SectionEvents(hs)), hs)
    decreases |hs|
  {
    if |hs| == 0 {
      assert out + [] == out;
    } else {
      HeaderGathered(out, hs[0]);
      SectionGathered(out + HeaderEvents(hs[0]), hs[1..]);
      Regroup(out, HeaderEvents(hs[0]), SectionEvents(hs[1..]));
    }
  }

  /** A message as the handler reports it; headers of a trailer count like those of the head. */
  ghost function MessageEvent(m: Message): HttpEvent {
    var q, all := m.head, HeaderMap(HeaderMap(map[], m.head.headers), TrailersOf(m));
    HttpEvent(q.target, WantsUpgrade(q), q.verb == HTTP_GET, Lookup(all, WS_KEY), Lookup(all, HOST))
  }

  /** Between two requests nothing is left over from the one before. */
  ghost predicate Gathering(out: seq<Event>, events: seq<HttpEvent>) {
    GatherEvents(out) == NOTHING.(events := events)
  }

  lemma LineGathered(out: seq<Event>, f: Fields, q: Request, events: seq<HttpEvent>)
    requires Gathering(out, events)
    ensures GatherEvents(out + LineEvents(f, q)) == NOTHING.(path := q.target, events := events)
  {
    var begun := Marked(MessageBegin, Started(f));
    GatherOneMore(out, begun);
    GatherOneMore(out + [begun], Span(UrlSpan, q.target));
    assert out + LineEvents(f, q) == out + [begun] + [Span(UrlSpan, q.target)];
    assert [] + q.target == q.target;
  }

  lemma HeadGathered(out: seq<Event>, f: Fields, q: Request, events: seq<HttpEvent>)
    requires Gathering(out, events)
    ensures var d := GatherEvents(out + HeadEvents(f, q));
      NameFresh(d) && d.headers == HeaderMap(map[], q.headers) && d.path == q.target && d.events == events
  {
    LineGathered(out, f, q, events);
    SectionGathered(out + LineEvents(f, q), q.headers);
    Regroup(out, LineEvents(f, q), SectionEvents(q.headers));
  }

  /** Bodies and the other callbacks leave what has been gathered alone. */
  lemma {:induction false} SilentGathered(out: seq<Event>, events: seq<Event>)
    requires AreSilent(events)
    ensures GatherEvents(out + events) == GatherEvents(out)
    decreases |events|
  {
    if |events| == 0 {
      assert out + events == out;
    } else {
      var n := |events| - 1;
      assert out + events == out + events[..n] + [events[n]];
      SilentGathered(out, events[..n]);
      GatherOneMore(out + events[..n], events[n]);
    }
  }

  /** A complete message is one event: its target, whether it is an upgrade and a GET, its key and its host. */
  lemma MessageGathered(c: Config, out: seq<Event>, m: Message, t: Telling, events: seq<HttpEvent>)
    requires Told(c, out, m, t) && Gathering(c.out, events)
    ensures Gathering(out, events + [MessageEvent(m)])
  {
    var head := c.out + HeadEvents(c.fields, m.head);
    HeadGathered(c.out, c.fields, m.head, events);
    SilentGathered(head, t.body);
    SectionGathered(head + t.body, TrailersOf(m));
    SilentGathered(head + t.body + SectionEvents(TrailersOf(m)), t.after);
    GatherOneMore(head + t.body + SectionEvents(TrailersOf(m)) + t.after, Marked(MessageComplete, t.end));
  }

  // ---------------------------------------------------------------- any number of messages

  /** Messages one behind the other, and what follows the last. */
  function PipelineText(ms: seq<Message>, tail: seq<byte>): seq<byte> {
    if |ms| == 0 then tail else MessageText(ms[0], PipelineText(ms[1..], tail))
  }

  ghost function EventsFor(ms: seq<Message>): seq<HttpEvent> {
    if |ms| == 0 then [] else [MessageEvent(ms[0])] + EventsFor(ms[1..])
  }

  /** The parser accepts all of the messages, each with the counter the one before leaves, and stops behind none. */
  ghost predicate Pipelined(n: nat, ms: seq<Message>)
    decreases |ms|
  {
    |ms| > 0 ==>
      && MessageAccepted(n, ms[0]) && !Pauses(n, ms[0])
      && Pipelined(CounterAfter(n, ms[0]), ms[1..])
  }

  ghost function CounterBehind(n: nat, ms: seq<Message>): nat
    requires Pipelined(n, ms)
    decreases |ms|
  {
    if |ms| == 0 then n else CounterBehind(CounterAfter(n, ms[0]), ms[1..])
  }

  /** Messages are heard one by one, bodies, trailers and missed upgrades included, whatever follows them. */
  lemma {:induction false} Pipeline(c: Config, ms: seq<Message>, tail: seq<byte>, events: seq<HttpEvent>)
    returns (d: Config)
    requires Between(c) && Pipelined(c.fields.contentLength, ms) && Gathering(c.out, events)
    ensures Between(d) && d.fields.contentLength == CounterBehind(c.fields.contentLength, ms)
    ensures HttpRun(GO_ON, c, PipelineText(ms, tail)) == HttpRun(GO_ON, d, tail)
    ensures Gathering(d.out, events + EventsFor(ms))
    decreases |ms|
  {
    hide HttpRun, HttpReady;
    if |ms| == 0 {
      d := c;
      assert events + [] == events;
    } else {
      var m, more := ms[0], PipelineText(ms[1..], tail);
      var e, t := MessageRead(c, m, more);
      MessageGathered(c, e.out, m, t, events);
      d := Pipeline(e, ms[1..], tail, events + [MessageEvent(m)]);
      Regroup(events, [MessageEvent(m)], EventsFor(ms[1..]));
    }
  }

  /** The messages of a conversation up to the first that stops the parser. */
  ghost predicate Upgrades(n: nat, ms: seq<Message>, u: Message) {
    && Pipelined(n, ms)
    && MessageAccepted(CounterBehind(n, ms), u) && Pauses(CounterBehind(n, ms), u)
  }

  /** The parser stops right behind the first message that is an upgrade, and the handler has them all. */
  lemma UpgradeHeard(c: Config, ms: seq<Message>, u: Message, tail: seq<byte>)
    requires Between(c) && Upgrades(c.fields.contentLength, ms, u) && Gathering(c.out, [])
    ensures var o := HttpRun(GO_ON, c, PipelineText(ms, MessageText(u, tail)));
      && o.Stopped? && o.code == HPE_PAUSED_UPGRADE && o.rest == tail
      && Requests(o.c.out) == EventsFor(ms) + [MessageEvent(u)]
  {
    hide HttpRun, HttpReady, MessageAccepted, Pipelined, CounterBehind, MessageText, Told, Gathering, MessageEvent;
    var d := Pipeline(c, ms, MessageText(u, tail), []);
    assert [] + EventsFor(ms) == EventsFor(ms);
    var e, t := MessageRead(d, u, tail);
    MessageGathered(d, e.out, u, t, EventsFor(ms));
  }

  // ---------------------------------------------------------------- a connection

  const START: Config := Initial(HTTP_REQUEST)

  lemma StartReady()
    ensures Between(START) && START.fields.contentLength == 0 && Gathering(START.out, [])
  {
  }

  /** A run that does not stop before its last piece: it does not stop at all, or leaves less than the last piece. */
  lemma StopsInLast(c: Config, pieces: seq<seq<byte>>)
    requires HttpReady(c) && |pieces| > 0
    requires var o := HttpRun(GO_ON, c, Flatten(pieces)); o.Stopped? ==> |o.rest| < |pieces[|pieces| - 1]|
    ensures LLHTTP.WellFormed() && LLHTTP.RunPieces(GO_ON, c, pieces[..|pieces| - 1]).Running?
  {
    LlhttpWellFormed();
    var most, last := pieces[..|pieces| - 1], pieces[|pieces| - 1];
    if |most| > 0 {
      FlattenMore(most, last);
      assert most + [last] == pieces;
      LLHTTP.RunPiecesIsRun(GO_ON, c, most);
      LLHTTP.RunSplit(GO_ON, c, Flatten(most), last);
    }
  }

  /** What the reads of a new connection deliver, each what it completes. */
  ghost function Reads(pieces: seq<seq<byte>>): seq<Delivery> {
    LlhttpWellFormed();
    StartReady();
    ReadsDeliver(LLHTTP, GO_ON, START, pieces)
  }

  /** If all the requests are served, that is what one read of all the octets would deliver. */
  lemma ServedAsOne(pieces: seq<seq<byte>>)
    requires |pieces| > 0
    requires var o := HttpRun(GO_ON, START, Flatten(pieces)); o.Stopped? ==> |o.rest| < |pieces[|pieces| - 1]|
    ensures var o := HttpRun(GO_ON, START, Flatten(pieces));
      !Refused(o) && AllServed(Requests(o.c.out)) ==> Reads(pieces) == Deliver(Requests(o.c.out))
  {
    StartReady();
    StopsInLast(START, pieces);
    ServedReads(LLHTTP, GO_ON, START, pieces);
    var o := HttpRun(GO_ON, START, Flatten(pieces));
    FromTheStart(o);
  }

  lemma FromTheStart(o: Outcome)
    ensures Since(Requests(START.out), Requests(o.c.out)) == Requests(o.c.out)
  {
    StartReady();
    var now := Requests(o.c.out);
    assert now[0..] == now;
  }

  /** A new connection that reads the pieces, up to an error or an upgrade in the last: what its handler hears is what
      one run over all the octets reports. */
  method ReadFrom(pieces: seq<seq<byte>>) returns (ghost heard: seq<HttpEvent>, told: seq<Delivery>)
    requires |pieces| > 0
    requires var o := HttpRun(GO_ON, START, Flatten(pieces)); o.Stopped? ==> |o.rest| < |pieces[|pieces| - 1]|
    ensures heard == Requests(HttpRun(GO_ON, START, Flatten(pieces)).c.out) && told == Reads(pieces)
  {
    StartReady();
    StopsInLast(START, pieces);
    var h := new HttpHandler();
    assert h.parser.Abs() == START;
    h.ReadAll(pieces);
    heard, told := h.taken, h.delivered;
    assert told == [] + Reads(pieces);
  }

  /** A new connection and its first read. */
  method ReadOne(data: seq<byte>) returns (ghost heard: seq<HttpEvent>, told: seq<Delivery>)
    ensures heard == Requests(HttpRun(GO_ON, START, data).c.out)
    ensures var o := HttpRun(GO_ON, START, data);
      told == (if Refused(o) then [HandshakeCancelled] else []) + Deliver(Requests(o.c.out))
  {
    StartReady();
    var h := new HttpHandler();
    ghost var o := HttpRun(GO_ON, START, data);
    assert h.parser.program.Run(h.parser.reply, h.parser.Abs(), data) == o;
    h.OnData(data);
    heard, told := h.taken, h.delivered;
    assert heard[0..] == heard;
    assert [] + (if Refused(o) then [HandshakeCancelled] else []) == if Refused(o) then [HandshakeCancelled] else [];
  }

  /** The requests a delegate is told of are those the client sent, in order, however the octets were cut into reads: any
      number of messages with or without bodies, and then the first upgrade, which ends in the last read. If none is
      refused, nothing that is told depends on the cuts. */
  method Converse(pieces: seq<seq<byte>>, ghost ms: seq<Message>, ghost u: Message, ghost tail: seq<byte>)
    returns (ghost heard: seq<HttpEvent>, told: seq<Delivery>)
    requires Upgrades(0, ms, u)
    requires |pieces| > 0 && |tail| < |pieces[|pieces| - 1]|
    requires Flatten(pieces) == PipelineText(ms, MessageText(u, tail))
    ensures heard == EventsFor(ms) + [MessageEvent(u)] && told == Reads(pieces)
    ensures AllServed(EventsFor(ms) + [MessageEvent(u)]) ==> told == Deliver(EventsFor(ms) + [MessageEvent(u)])
  {
    hide HttpRun, HttpReady;
    StartReady();
    UpgradeHeard(START, ms, u, tail);
    ServedAsOne(pieces);
    heard, told := ReadFrom(pieces);
  }

  /** The same for a conversation without an upgrade. */
  method ConversePlain(pieces: seq<seq<byte>>, ghost ms: seq<Message>)
    returns (ghost heard: seq<HttpEvent>, told: seq<Delivery>)
    requires Pipelined(0, ms) && |pieces| > 0 && Flatten(pieces) == PipelineText(ms, [])
    ensures heard == EventsFor(ms) && told == Reads(pieces)
    ensures AllServed(EventsFor(ms)) ==> told == Deliver(EventsFor(ms))
  {
    hide HttpRun, HttpReady;
    PlainHeard(ms);
    ServedAsOne(pieces);
    heard, told := ReadFrom(pieces);
  }

  lemma PlainHeard(ms: seq<Message>)
    requires Pipelined(0, ms)
    ensures var o := HttpRun(GO_ON, START, PipelineText(ms, [])); o.Running? && Requests(o.c.out) == EventsFor(ms)
  {
    hide HttpRun, HttpReady;
    StartReady();
    var d := Pipeline(START, ms, [], []);
    assert [] + EventsFor(ms) == EventsFor(ms);
    Waits(d);
  }

  /** What is delivered for a request to an allowed host that carries a key. */
  lemma {:induction false} LastDelivered(events: seq<HttpEvent>, e: HttpEvent)
    requires AllServed(events + [e])
    ensures Deliver(events + [e]) == Deliver(events) + [Verdict(e)]
  {
    assert AllServed(events) by {
      assert forall x :: x in events ==> x in events + [e];
    }
    DeliverSplit(events, [e]);
    assert e in events + [e];
    assert Deliver([e]) == [Verdict(e)] by {
      assert [e][1..] == [] && [Verdict(e)] + [] == [Verdict(e)];
    }
  }

  // ---------------------------------------------------------------- an opening handshake

  // "Upgrade", "Connection", "websocket"
  const UPGRADE_NAME: seq<byte> := [0x55, 0x70, 0x67, 0x72, 0x61, 0x64, 0x65]
  const CONNECTION_NAME: seq<byte> := [0x43, 0x6f, 0x6e, 0x6e, 0x65, 0x63, 0x74, 0x69, 0x6f, 0x6e]
  const WEBSOCKET: seq<byte> := [0x77, 0x65, 0x62, 0x73, 0x6f, 0x63, 0x6b, 0x65, 0x74]

  const ONE_SPACE: seq<byte> := [SP]

  function OwnHeaders(host: seq<byte>, key: seq<byte>): seq<Header> {
    [OneLine(HOST, ONE_SPACE, host), OneLine(UPGRADE_NAME, ONE_SPACE, WEBSOCKET),
     OneLine(CONNECTION_NAME, ONE_SPACE, UPGRADE_NAME), OneLine(WS_KEY, ONE_SPACE, key)]
  }

  /** The opening handshake of section 4.1 of RFC 6455: a GET over HTTP/1.1 with these headers and others. */
  function Handshake(target: seq<byte>, host: seq<byte>, key: seq<byte>, others: seq<Header>): Request {
    Asking(HTTP_GET, target, OwnHeaders(host, key) + others)
  }

  /** A value without blanks in front. */
  predicate IsTrimmed(s: seq<byte>) {
    |s| > 0 && IsValue(s) && !IsBlank(s[0])
  }

  lemma HandshakeNames()
    ensures IsName(HOST) && IsName(UPGRADE_NAME) && IsName(CONNECTION_NAME) && IsName(WS_KEY)
    ensures IsTrimmed(WEBSOCKET) && IsTrimmed(UPGRADE_NAME)
  {
    PlainIsName(HOST);
    PlainIsName(UPGRADE_NAME);
    PlainIsName(CONNECTION_NAME);
    PlainIsName(WS_KEY);
  }

  lemma SpecialStates()
    ensures StateOf(UPGRADE_NAME) == 4 && StateOf(CONNECTION_NAME) == 1
  {
    StateByOctetIs(UPGRADE_NAME);
    assert IsWord(UPGRADE_NAME[1..], PGRADE);
    assert IsWord(CONNECTION_NAME, CONNECTION);
  }

  /** No special name begins with an H or an S. */
  lemma PlainState(name: seq<byte>)
    requires |name| > 0 && (AsWord(name[0]) == 0x68 || AsWord(name[0]) == 0x73)
    ensures StateOf(name) == 0
  {
    StateByOctetIs(name);
  }

  lemma UpgradeWord()
    ensures IsList(UPGRADE_NAME) && ConnectionFlags(UPGRADE_NAME) == F_CONNECTION_UPGRADE
    ensures ExtraOctets(UPGRADE_NAME) == []
  {
    hide TokenFlag, IsElement, IsList, ConnectionFlags, IsWord;
    OneElement(UPGRADE_NAME);
    UpgradeElement();
    UpgradeToken();
  }

  lemma UpgradeElement()
    ensures IsElement(UPGRADE_NAME)
  {
    var e := UPGRADE_NAME;
    assert !Skipped(e[0]);
    assert forall i: nat | i < |e| :: IsValueOctet(e[i]) && IsElementOctet(e, i);
  }

  lemma UpgradeToken()
    ensures TokenFlag(UPGRADE_NAME) == F_CONNECTION_UPGRADE
  {
    var e := UPGRADE_NAME;
    assert !Skipped(e[0]) && IsWord(e, UPGRADE);
    assert AsWord(e[0]) == 0x75;
  }

  // ---------------------------------------------------------------- finding a header

  lemma {:induction false} HeaderOther(m: map<seq<byte>, seq<byte>>, hs: seq<Header>, key: seq<byte>)
    requires forall i {:trigger hs[i]} | 0 <= i < |hs| :: hs[i].name != key
    ensures var d := HeaderMap(m, hs); (key in d <==> key in m) && (key in m ==> d[key] == m[key])
    decreases |hs|
  {
    if |hs| > 0 {
      assert hs[0].name != key;
      assert forall i {:trigger hs[1..][i]} | 0 <= i < |hs| - 1 :: hs[1..][i] == hs[i + 1];
      HeaderOther(m[hs[0].name := ValueOf(m, hs[0].name) + ToldOf(hs[0])], hs[1..], key);
    }
  }

  /** A name that occurs once is stored with its value. */
  lemma {:induction false} HeaderOnce(m: map<seq<byte>, seq<byte>>, hs: seq<Header>, i: nat)
    requires i < |hs| && hs[i].name !in m
    requires forall j {:trigger hs[j]} | 0 <= j < |hs| && j != i :: hs[j].name != hs[i].name
    ensures var d := HeaderMap(m, hs); var h := hs[i];
      h.name in d && d[h.name] == ToldOf(h)
    decreases |hs|
  {
    var h, t := hs[0], hs[1..];
    var n := m[h.name := ValueOf(m, h.name) + ToldOf(h)];
    assert forall j {:trigger t[j]} | 0 <= j < |t| :: t[j] == hs[j + 1];
    if i == 0 {
      assert [] + ToldOf(h) == ToldOf(h);
      HeaderOther(n, t, h.name);
    } else {
      assert hs[i] == t[i - 1] && h.name != hs[i].name;
      HeaderOnce(n, t, i - 1);
    }
  }

  /** The only header whose name begins with `name` is the one that is found. */
  lemma LookupOne(hs: seq<Header>, i: nat, name: seq<byte>)
    requires i < |hs| && BeginsNoCase(hs[i].name, name)
    requires forall j {:trigger hs[j]} | 0 <= j < |hs| && j != i :: !BeginsNoCase(hs[j].name, name)
    ensures Lookup(HeaderMap(map[], hs), name) == ToldOf(hs[i])
  {
    hide BeginsNoCase, HeaderMap, ToldOf;
    var m, key := HeaderMap(map[], hs), hs[i].name;
    HeaderOnce(map[], hs, i);
    forall other | other in m && BeginsNoCase(other, name) ensures other == key {
      if other != key {
        forall j {:trigger hs[j]} | 0 <= j < |hs| ensures hs[j].name != other {
        }
        HeaderOther(map[], hs, other);
      }
    }
    assert OnlyKey(m, name, key);
  }

  // ---------------------------------------------------------------- the handshake is heard

  /** A header the handshake has besides its own: one the parser does not treat specially, and not taken for the host
      or the key. */
  predicate IsExtra(h: Header) {
    && IsLine(h) && !Indented(h) && IsName(h.name) && AreValues([h.value] + h.folds)
    && StateOf(h.name) == 0 && !BeginsNoCase(h.name, HOST) && !BeginsNoCase(h.name, WS_KEY)
  }

  predicate AreValues(lines: seq<seq<byte>>) {
    forall i {:trigger lines[i]} | 0 <= i < |lines| :: IsValue(lines[i])
  }

  predicate AreExtra(hs: seq<Header>) {
    forall i {:trigger hs[i]} | 0 <= i < |hs| :: IsExtra(hs[i])
  }

  lemma {:induction false} ValuesFit(lines: seq<seq<byte>>)
    requires AreValues(lines)
    ensures LinesFit(0, lines)
    decreases |lines|
  {
    if |lines| > 0 {
      var t := lines[1..];
      assert forall i {:trigger t[i]} | 0 <= i < |t| :: t[i] == lines[i + 1];
      assert IsValue(lines[0]);
      ValuesFit(t);
    }
  }

  /** A header that any section may hold: its acceptance does not depend on the headers before it, and it is no length. */
  predicate AlwaysFits(h: Header) {
    && IsLine(h) && !Indented(h) && IsName(h.name)
    && StateOf(h.name) != 2 && (h.value != [] ==> LinesFit(StateOf(h.name), [h.value] + h.folds))
  }

  lemma ExtraFits(h: Header)
    requires IsExtra(h)
    ensures AlwaysFits(h) && HeaderFlags(h) == 0
  {
    ValuesFit([h.value] + h.folds);
    FoldsSayNothing(0, [h.value] + h.folds);
    OrNothing(0);
  }

  /** A header of the handshake: one of its own, or another. */
  lemma HeaderIs(target: seq<byte>, host: seq<byte>, key: seq<byte>, others: seq<Header>, i: nat)
    requires i < |others| + 4
    ensures var hs := Handshake(target, host, key, others).headers;
      |hs| == |others| + 4 && hs[i] == if i < 4 then OwnHeaders(host, key)[i] else others[i - 4]
  {
  }

  lemma OneFits(name: seq<byte>, value: seq<byte>)
    requires |name| > 0 && IsName(name) && StateOf(name) != 2 && IsTrimmed(value) && (StateOf(name) == 1 ==> IsList(value))
    requires IsLine(OneLine(name, ONE_SPACE, value)) && !IsBlank(name[0])
    ensures AlwaysFits(OneLine(name, ONE_SPACE, value))
  {
    var lines := [value] + [];
    assert lines[0] == value && lines[1..] == [];
  }

  lemma OwnParts(host: seq<byte>, key: seq<byte>, i: nat)
    requires i < 4 && IsTrimmed(host) && IsTrimmed(key)
    ensures var h := OwnHeaders(host, key)[i];
      h == OneLine(h.name, ONE_SPACE, h.value) && IsName(h.name) && |h.name| > 0 && IsTrimmed(h.value)
  {
    hide IsName, IsTrimmed;
    HandshakeNames();
  }

  lemma OwnNotIndented(host: seq<byte>, key: seq<byte>, i: nat)
    requires i < 4
    ensures !Indented(OwnHeaders(host, key)[i])
  {
  }

  lemma OwnHeader(host: seq<byte>, key: seq<byte>, i: nat)
    requires i < 4 && IsTrimmed(host) && IsTrimmed(key)
    ensures AlwaysFits(OwnHeaders(host, key)[i])
  {
    hide IsList, StateOf, AlwaysFits, IsName, IsTrimmed, IsLine, HeaderFlags, IsBlank;
    OwnParts(host, key, i);
    OwnNotIndented(host, key, i);
    OwnFlags(host, key, i);
    var h := OwnHeaders(host, key)[i];
    OwnLine(h.name, h.value);
    if i == 2 {
      UpgradeWord();
    }
    OneFits(h.name, h.value);
  }

  lemma OwnLine(name: seq<byte>, value: seq<byte>)
    requires IsName(name) && IsTrimmed(value)
    ensures IsLine(OneLine(name, ONE_SPACE, value))
  {
    NameOctets(name);
    assert ONE_SPACE[1..] == [];
  }

  lemma OwnFlags(host: seq<byte>, key: seq<byte>, i: nat)
    requires i < 4 && IsTrimmed(host) && IsTrimmed(key)
    ensures var h := OwnHeaders(host, key)[i];
      && StateOf(h.name) == (if i == 1 then 4 else if i == 2 then 1 else 0)
      && HeaderFlags(h) == if i == 1 then F_UPGRADE else if i == 2 then F_CONNECTION_UPGRADE else 0
  {
    var h := OwnHeaders(host, key)[i];
    SimpleFlags(h.name, ONE_SPACE, h.value);
    if i == 1 || i == 2 {
      SpecialStates();
      UpgradeWord();
    } else {
      PlainState(OwnHeaders(host, key)[i].name);
    }
  }

  predicate AllFit(hs: seq<Header>) {
    forall i {:trigger hs[i]} | 0 <= i < |hs| :: AlwaysFits(hs[i])
  }

  /** Without a Content-Length the counter stays as it was. */
  lemma {:induction false} NoLengthHeader(f: Fields, hs: seq<Header>)
    requires AllFit(hs)
    ensures SectionAccepted(f, hs) && SectionFields(f, hs).contentLength == f.contentLength
    decreases |hs|
  {
    if |hs| > 0 {
      var t := hs[1..];
      assert AlwaysFits(hs[0]);
      assert forall i {:trigger t[i]} | 0 <= i < |t| :: t[i] == hs[i + 1];
      NoLengthHeader(HeaderEffect(f, hs[0]), t);
    }
  }

  lemma HandshakeFlags(target: seq<byte>, host: seq<byte>, key: seq<byte>, others: seq<Header>, i: nat)
    requires i < |others| + 4 && IsTrimmed(host) && IsTrimmed(key) && AreExtra(others)
    ensures var hs := Handshake(target, host, key, others).headers;
      && |hs| == |others| + 4 && AlwaysFits(hs[i])
      && HeaderFlags(hs[i]) == if i == 1 then F_UPGRADE else if i == 2 then F_CONNECTION_UPGRADE else 0
  {
    HeaderIs(target, host, key, others, i);
    if i < 4 {
      OwnHeader(host, key, i);
      OwnFlags(host, key, i);
    } else {
      ExtraFits(others[i - 4]);
    }
  }

  /** An opening handshake as a message. */
  function Opening(target: seq<byte>, host: seq<byte>, key: seq<byte>, others: seq<Header>): Message {
    Message(Handshake(target, host, key, others), NoPayload)
  }

  /** What the headers of an opening handshake set. */
  lemma HandshakeSets(target: seq<byte>, host: seq<byte>, key: seq<byte>, others: seq<Header>)
    requires IsPath(target) && IsTrimmed(host) && IsTrimmed(key) && AreExtra(others)
    ensures var q := Handshake(target, host, key, others);
      && IsRequest(q) && WantsUpgrade(q) && !Sets(q.headers, F_CHUNKED) && !Sets(q.headers, F_CONTENT_LENGTH)
      && AllFit(q.headers)
  {
    var hs := Handshake(target, host, key, others).headers;
    forall i: nat {:trigger hs[i]} | i < |hs|
      ensures AlwaysFits(hs[i])
      ensures HeaderFlags(hs[i]) == if i == 1 then F_UPGRADE else if i == 2 then F_CONNECTION_UPGRADE else 0
    {
      HandshakeFlags(target, host, key, others, i);
    }
    assert AreLines(hs) by {
      forall i {:trigger hs[i]} | 0 <= i < |hs| ensures IsLine(hs[i]) && !Indented(hs[i]) {
        assert AlwaysFits(hs[i]);
      }
    }
    assert HeaderFlags(hs[1]) == F_UPGRADE && HeaderFlags(hs[2]) == F_CONNECTION_UPGRADE;
  }

  /** It is accepted wherever the counter stands, leaves it there, and stops the parser exactly if it stands at zero. */
  lemma HandshakeAccepted(n: nat, target: seq<byte>, host: seq<byte>, key: seq<byte>, others: seq<Header>)
    requires IsPath(target) && IsTrimmed(host) && IsTrimmed(key) && AreExtra(others)
    ensures var u := Opening(target, host, key, others);
      MessageAccepted(n, u) && WantsUpgrade(u.head) && (Pauses(n, u) <==> n == 0) && CounterAfter(n, u) == n
  {
    var q := Handshake(target, host, key, others);
    HandshakeSets(target, host, key, others);
    NoLengthHeader(LineFields(Fresh(n), q), q.headers);
  }

  lemma FirstLetter(s: seq<byte>, name: seq<byte>)
    requires |s| > 0 && |name| > 0 && ToLower(s[0]) != ToLower(name[0])
    ensures !BeginsNoCase(s, name)
  {
    if |name| <= |s| {
      assert s[..|name|][0] == s[0];
    }
  }

  lemma Itself(name: seq<byte>)
    ensures BeginsNoCase(name, name)
  {
    assert name[..|name|] == name;
  }

  lemma OwnNames(host: seq<byte>, key: seq<byte>, i: nat)
    requires i < 4
    ensures var h := OwnHeaders(host, key)[i];
      && (BeginsNoCase(h.name, HOST) <==> i == 0) && (BeginsNoCase(h.name, WS_KEY) <==> i == 3)
  {
    var h := OwnHeaders(host, key)[i];
    Itself(h.name);
    if i != 0 {
      FirstLetter(h.name, HOST);
    }
    if i != 3 {
      FirstLetter(h.name, WS_KEY);
    }
  }

  /** A plain value is told as it is. */
  lemma PlainTold(name: seq<byte>, value: seq<byte>)
    requires |name| > 0 && (AsWord(name[0]) == 0x68 || AsWord(name[0]) == 0x73) && value != []
    ensures ToldOf(OneLine(name, ONE_SPACE, value)) == value
  {
    PlainState(name);
    var lines := [value] + [];
    assert lines[0] == value && lines[1..] == [];
    assert LinesTold(0, lines) == value + [] + LinesTold(0, []);
  }

  lemma HandshakeFound(target: seq<byte>, host: seq<byte>, key: seq<byte>, others: seq<Header>)
    requires IsTrimmed(host) && IsTrimmed(key) && AreExtra(others)
    ensures var m := HeaderMap(map[], Handshake(target, host, key, others).headers);
      Lookup(m, HOST) == host && Lookup(m, WS_KEY) == key
  {
    var hs := Handshake(target, host, key, others).headers;
    forall i: nat {:trigger hs[i]} | i < |hs|
      ensures BeginsNoCase(hs[i].name, HOST) <==> i == 0
      ensures BeginsNoCase(hs[i].name, WS_KEY) <==> i == 3
    {
      HeaderIs(target, host, key, others, i);
      if i < 4 {
        OwnNames(host, key, i);
      } else {
        assert IsExtra(others[i - 4]);
      }
    }
    LookupOne(hs, 0, HOST);
    LookupOne(hs, 3, WS_KEY);
    PlainTold(HOST, host);
    PlainTold(WS_KEY, key);
  }

  /** Every opening handshake is an event with its own target, host and key, marked as an upgrade. */
  lemma HandshakeHeard(target: seq<byte>, host: seq<byte>, key: seq<byte>, others: seq<Header>)
    requires IsPath(target) && IsTrimmed(host) && IsTrimmed(key) && AreExtra(others)
    ensures MessageEvent(Opening(target, host, key, others)) == HttpEvent(target, true, true, key, host)
  {
    HandshakeAccepted(0, target, host, key, others);
    HandshakeFound(target, host, key, others);
  }

  /** From the octets to the delegate: behind any messages that are served and leave the counter at zero, an opening
      handshake for an allowed host is delivered as a socket upgrade, however all of it was cut into reads. */
  method Upgrade(pieces: seq<seq<byte>>, ghost ms: seq<Message>, ghost target: seq<byte>, ghost host: seq<byte>,
                 ghost key: seq<byte>, ghost others: seq<Header>, ghost tail: seq<byte>)
    returns (told: seq<Delivery>)
    requires Pipelined(0, ms) && CounterBehind(0, ms) == 0 && AllServed(EventsFor(ms))
    requires IsPath(target) && IsTrimmed(host) && IsTrimmed(key) && AreExtra(others) && AllowedHost(host)
    requires |pieces| > 0 && |tail| < |pieces[|pieces| - 1]|
    requires Flatten(pieces) == PipelineText(ms, MessageText(Opening(target, host, key, others), tail))
    ensures told == Deliver(EventsFor(ms)) + [SocketUpgrade(host, target, key)]
  {
    hide HttpRun, HttpReady;
    HandshakeHeard(target, host, key, others);
    HandshakeAccepted(0, target, host, key, others);
    ghost var u := Opening(target, host, key, others);
    ghost var heard;
    heard, told := Converse(pieces, ms, u, tail);
    assert AllServed(heard) by {
      assert !Verdict(MessageEvent(u)).HandshakeCancelled?;
    }
    LastDelivered(EventsFor(ms), MessageEvent(u));
  }
}
