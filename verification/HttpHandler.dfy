/** The HTTP side of an inspector connection: the callbacks that gather a request from the parser, and what is done with
    each complete request. */
module HttpHandler {
  import opened Bytes
  import opened LlhttpTypes
  import opened LlhttpTables
  import opened LlhttpProgram
  import opened Llparse
  import opened LlparseSpans
  import opened LlparseParser
  import opened HttpText

  datatype HttpEvent = HttpEvent(path: seq<byte>, upgrade: bool, isGet: bool, wsKey: seq<byte>, host: seq<byte>)

  /** What the connection's delegate is told about a request. */
  datatype Delivery =
    | HttpGet(host: seq<byte>, path: seq<byte>)
    | SocketUpgrade(host: seq<byte>, path: seq<byte>, wsKey: seq<byte>)
    | HandshakeCancelled

  // ---------------------------------------------------------------- gathering a request

  /** The fields the callbacks update. */
  datatype Gathered = Gathered(
    parsingValue: bool,
    currentHeader: seq<byte>,
    headers: map<seq<byte>, seq<byte>>,
    path: seq<byte>,
    events: seq<HttpEvent>)

  const NOTHING: Gathered := Gathered(false, [], map[], [], [])

  function ValueOf(headers: map<seq<byte>, seq<byte>>, name: seq<byte>): seq<byte> {
    if name in headers then headers[name] else []
  }

  /** Some octets of a span. */
  function Gather(g: Gathered, kind: SpanKind, octets: seq<byte>): Gathered {
    match kind
    case UrlSpan => g.(path := g.path + octets)
    case FieldSpan => g.(parsingValue := false, currentHeader := (if g.parsingValue then [] else g.currentHeader) + octets)
    case ValueSpan =>
      g.(parsingValue := true, headers := g.headers[g.currentHeader := ValueOf(g.headers, g.currentHeader) + octets])
    case _ => g
  }

  /** A complete message. */
  ghost function Complete(g: Gathered, seen: Fields): Gathered {
    NOTHING.(events := g.events + [EventOf(g, seen)])
  }

  ghost function EventOf(g: Gathered, seen: Fields): HttpEvent {
    HttpEvent(g.path, seen.upgrade != 0, seen.verb == HTTP_GET, Lookup(g.headers, WS_KEY), Lookup(g.headers, HOST))
  }

  /** A header's value: that of the only header whose name begins with `name`, in any case; if there are none or
      several, nothing. */
  ghost function Lookup(headers: map<seq<byte>, seq<byte>>, name: seq<byte>): seq<byte> {
    if key :| OnlyKey(headers, name, key) then headers[key] else []
  }

  ghost predicate OnlyKey(headers: map<seq<byte>, seq<byte>>, name: seq<byte>, key: seq<byte>) {
    && key in headers && BeginsNoCase(key, name)
    && forall other | other in headers && BeginsNoCase(other, name) :: other == key
  }

  ghost function GatherMark(g: Gathered, mark: Mark, seen: Fields): Gathered {
    if mark.MessageComplete? then Complete(g, seen) else g
  }

  ghost function GatherCall(g: Gathered, call: Call): Gathered {
    match call
    case Data(kind, octets, _) => Gather(g, kind, octets)
    case Told(mark, seen) => GatherMark(g, mark, seen)
  }

  ghost function GatherCalls(calls: seq<Call>): Gathered {
    if |calls| == 0 then NOTHING else GatherCall(GatherCalls(calls[..|calls| - 1]), calls[|calls| - 1])
  }

  ghost function GatherEvent(g: Gathered, e: Event): Gathered {
    match e
    case Span(kind, octets) => Gather(g, kind, octets)
    case Marked(mark, seen) => GatherMark(g, mark, seen)
  }

  /** The same from whole spans. */
  ghost function GatherEvents(out: seq<Event>): Gathered {
    if |out| == 0 then NOTHING else GatherEvent(GatherEvents(out[..|out| - 1]), out[|out| - 1])
  }

  ghost function GatherOpen(g: Gathered, open: Option<Pending>): Gathered {
    match open
    case None => g
    case Some(p) => Gather(g, p.kind, p.octets)
  }

  ghost function Requests(out: seq<Event>): seq<HttpEvent> {
    GatherEvents(out).events
  }

  lemma GatherTwice(g: Gathered, kind: SpanKind, x: seq<byte>, y: seq<byte>)
    ensures Gather(Gather(g, kind, x), kind, y) == Gather(g, kind, x + y)
  {
    if kind.UrlSpan? {
      Regroup(g.path, x, y);
    } else if kind.FieldSpan? {
      Regroup(if g.parsingValue then [] else g.currentHeader, x, y);
    } else if kind.ValueSpan? {
      var name := g.currentHeader;
      Regroup(ValueOf(g.headers, name), x, y);
      var one := g.headers[name := ValueOf(g.headers, name) + x];
      assert one[name := one[name] + y] == g.headers[name := ValueOf(g.headers, name) + (x + y)];
    }
  }

  lemma GatherOneMore(out: seq<Event>, e: Event)
    ensures GatherEvents(out + [e]) == GatherEvent(GatherEvents(out), e)
  {
    assert (out + [e])[..|out|] == out;
  }

  /** Names and values gathered from parts of spans are those of the whole spans, wherever the parts were cut and
      whatever the parsing_value toggle was doing in between. */
  lemma {:induction false} GatheredWhole(calls: seq<Call>)
    requires Paired(calls)
    ensures var h := HearAll(calls); GatherCalls(calls) == GatherOpen(GatherEvents(h.out), h.open)
    decreases |calls|
  {
    if |calls| > 0 {
      var before := calls[..|calls| - 1];
      GatheredWhole(before);
      var h := HearAll(before);
      match calls[|calls| - 1]
      case Told(mark, seen) =>
        GatherOneMore(h.out, Marked(mark, seen));
      case Data(kind, octets, last) =>
        GatherTwice(GatherEvents(h.out), kind, Carried(h.open), octets);
        GatherOneMore(h.out, Span(kind, Carried(h.open) + octets));
        assert [] + octets == octets;
    }
  }

  /** Only complete messages are requests. */
  lemma EventsWhole(g: Gathered, open: Option<Pending>)
    ensures GatherOpen(g, open).events == g.events
  {
  }

  // ---------------------------------------------------------------- deliveries

  ghost function Verdict(e: HttpEvent): Delivery {
    if !AllowedHost(e.host) || !e.isGet then HandshakeCancelled
    else if !e.upgrade then HttpGet(e.host, e.path)
    else if e.wsKey == [] then HandshakeCancelled
    else SocketUpgrade(e.host, e.path, e.wsKey)
  }

  /** The requests of one read: the first that is refused ends it. */
  ghost function Deliver(events: seq<HttpEvent>): seq<Delivery> {
    if |events| == 0 then []
    else if Verdict(events[0]).HandshakeCancelled? then [HandshakeCancelled]
    else [Verdict(events[0])] + Deliver(events[1..])
  }

  ghost predicate AllServed(events: seq<HttpEvent>) {
    forall e | e in events :: !Verdict(e).HandshakeCancelled?
  }

  lemma ServedHead(a: seq<HttpEvent>)
    requires |a| > 0
    ensures AllServed(a) <==> !Verdict(a[0]).HandshakeCancelled? && AllServed(a[1..])
  {
    assert forall e :: e in a <==> e == a[0] || e in a[1..];
  }

  /** The first `k` requests are served: they are GETs for allowed hosts, upgrades with a key, and each is delivered as
      what it is; behind them there is none, or one that is refused and ends the read. */
  ghost predicate Answers(events: seq<HttpEvent>, told: seq<Delivery>, k: nat) {
    && k <= |events| && |told| == (if k < |events| then k + 1 else k)
    && (forall i | 0 <= i < k ::
          && AllowedHost(events[i].host) && events[i].isGet && (events[i].upgrade ==> events[i].wsKey != [])
          && told[i] == if events[i].upgrade then SocketUpgrade(events[i].host, events[i].path, events[i].wsKey)
                        else HttpGet(events[i].host, events[i].path))
    && (k < |events| ==>
          && (!AllowedHost(events[k].host) || !events[k].isGet || (events[k].upgrade && events[k].wsKey == []))
          && told[k] == HandshakeCancelled)
  }

  ghost predicate AllAnswered(events: seq<HttpEvent>, told: seq<Delivery>) {
    exists k: nat :: Answers(events, told, k)
  }

  lemma {:induction false} DeliverAnswers(events: seq<HttpEvent>) returns (k: nat)
    ensures Answers(events, Deliver(events), k)
    decreases |events|
  {
    k := 0;
    if |events| > 0 && !Verdict(events[0]).HandshakeCancelled? {
      var t, told := events[1..], Deliver(events);
      var j := DeliverAnswers(t);
      k := j + 1;
      assert told[1..] == Deliver(t);
      forall i | 0 <= i < k
        ensures AllowedHost(events[i].host) && events[i].isGet && (events[i].upgrade ==> events[i].wsKey != [])
        ensures told[i] == if events[i].upgrade then SocketUpgrade(events[i].host, events[i].path, events[i].wsKey)
                           else HttpGet(events[i].host, events[i].path)
      {
        if i > 0 {
          assert events[i] == t[i - 1] && told[i] == told[1..][i - 1];
        }
      }
      if k < |events| {
        assert events[k] == t[j] && told[k] == told[1..][j];
      }
    }
  }

  /** Only the first request that is refused is answered differently, so `k` is no choice. */
  lemma AnswersOnce(events: seq<HttpEvent>, x: seq<Delivery>, y: seq<Delivery>, j: nat, k: nat)
    requires Answers(events, x, j) && Answers(events, y, k)
    ensures j == k && x == y
  {
  }

  /** A delegate is told only of GETs for allowed hosts that came in these requests. */
  ghost predicate Honest(events: seq<HttpEvent>, told: seq<Delivery>) {
    forall i | 0 <= i < |told| :: Backed(events, told[i])
  }

  ghost predicate Backed(events: seq<HttpEvent>, d: Delivery) {
    match d
    case HandshakeCancelled => true
    case HttpGet(host, path) =>
      AllowedHost(host) && exists e :: e in events && e.isGet && !e.upgrade && e.host == host && e.path == path
    case SocketUpgrade(host, path, key) =>
      && AllowedHost(host) && key != []
      && exists e :: e in events && e.isGet && e.upgrade && e.host == host && e.path == path && e.wsKey == key
  }

  lemma BackedAt(events: seq<HttpEvent>, told: seq<Delivery>, k: nat, i: nat)
    requires Answers(events, told, k) && i < |told|
    ensures Backed(events, told[i])
  {
    hide AllowedHost;
    if i < k {
      assert events[i] in events;
    }
  }

  lemma DeliverHonest(events: seq<HttpEvent>)
    ensures Honest(events, Deliver(events))
  {
    hide Answers, Backed, Deliver;
    var k := DeliverAnswers(events);
    var told := Deliver(events);
    forall i | 0 <= i < |told| ensures Backed(events, told[i]) {
      BackedAt(events, told, k, i);
    }
  }

  lemma HonestMore(was: seq<HttpEvent>, now: seq<HttpEvent>, told: seq<Delivery>, more: seq<Delivery>)
    requires Honest(was, told) && Honest(now, more)
    ensures Honest(was + now, told + more)
  {
    var all, out := was + now, told + more;
    forall i | 0 <= i < |out| ensures Backed(all, out[i]) {
      var d := out[i];
      assert forall e :: e in all <==> e in was || e in now;
      assert Backed(was, d) || Backed(now, d) by {
        assert d == if i < |told| then told[i] else more[i - |told|];
      }
    }
  }

  lemma HonestRead(was: seq<HttpEvent>, now: seq<HttpEvent>, told: seq<Delivery>, more: seq<Delivery>)
    requires Honest(was, told) && Honest(now, more)
    ensures Honest(was + now, told + more) && Honest(was + now, told + [HandshakeCancelled] + more)
  {
    hide Honest;
    HonestMore(was, now, told, more);
    assert Honest([], [HandshakeCancelled]) by {
      OneCancelled();
    }
    assert was + [] == was;
    HonestMore(was, [], told, [HandshakeCancelled]);
    HonestMore(was, now, told + [HandshakeCancelled], more);
  }

  lemma OneCancelled()
    ensures Honest([], [HandshakeCancelled])
  {
  }

  lemma SameBehind(v: Delivery, x: seq<Delivery>, y: seq<Delivery>)
    ensures [v] + x == [v] + y <==> x == y
  {
    assert ([v] + x)[1..] == x && ([v] + y)[1..] == y;
  }

  /** Reading the same requests in two reads instead of one delivers the same exactly if the first read holds no refused
      request, or the second holds none at all: a refusal drops what was read with it, and nothing else. */
  lemma {:induction false} DeliverSplit(a: seq<HttpEvent>, b: seq<HttpEvent>)
    ensures Deliver(a + b) == Deliver(a) + Deliver(b) <==> AllServed(a) || b == []
    decreases |a|
  {
    if |a| == 0 {
      assert a + b == b;
    } else {
      assert (a + b)[1..] == a[1..] + b;
      ServedHead(a);
      DeliverSplit(a[1..], b);
      var v, z := Verdict(a[0]), Deliver(b);
      if v.HandshakeCancelled? {
        assert |z| == 0 <==> b == [];
      } else {
        Regroup([v], Deliver(a[1..]), z);
        SameBehind(v, Deliver(a[1..] + b), Deliver(a[1..]) + z);
      }
    }
  }

  // ---------------------------------------------------------------- the handler

  class HttpHandler {
    const parser: Parser
    var parsingValue: bool
    var currentHeader: seq<byte>
    var headers: map<seq<byte>, seq<byte>>
    var path: seq<byte>
    var events: seq<HttpEvent>
    /** What the delegate and the peer have been told. */
    var delivered: seq<Delivery>
    /** The requests already taken out of `events`. */
    ghost var taken: seq<HttpEvent>

    ghost function State(): Gathered
      reads this
    {
      Gathered(parsingValue, currentHeader, headers, path, taken + events)
    }

    ghost predicate Valid()
      reads this, parser
    {
      && parser.Valid() && parser.error != HPE_PAUSED_UPGRADE
      && Paired(parser.calls)
      && events == [] && State() == GatherCalls(parser.calls)
      && Honest(taken, delivered)
    }

    constructor ()
      ensures parser.program == LLHTTP && parser.reply == GO_ON
      ensures Valid() && fresh(parser) && delivered == [] && taken == [] && parser.error == 0
      ensures parser.Abs() == Initial(HTTP_REQUEST)
    {
      LlhttpWellFormed();
      parser := new Parser(LLHTTP, HTTP_REQUEST, GO_ON);
      parsingValue, currentHeader, headers, path, events := false, [], map[], [], [];
      delivered := [];
      taken := [];
    }

    method OnHeaderValue(octets: seq<byte>)
      modifies `parsingValue, `headers
      ensures State() == Gather(old(State()), ValueSpan, octets)
    {
      parsingValue := true;
      if currentHeader in headers {
        headers := headers[currentHeader := headers[currentHeader] + octets];
      } else {
        assert [] + octets == octets;
        headers := headers[currentHeader := octets];
      }
    }

    method OnHeaderField(octets: seq<byte>)
      modifies `parsingValue, `currentHeader
      ensures State() == Gather(old(State()), FieldSpan, octets)
    {
      if parsingValue {
        parsingValue := false;
        currentHeader := [];
      }
      currentHeader := currentHeader + octets;
    }

    method OnPath(octets: seq<byte>)
      modifies `path
      ensures State() == Gather(old(State()), UrlSpan, octets)
    {
      path := path + octets;
    }

    method OnMessageComplete(seen: Fields)
      modifies `parsingValue, `currentHeader, `headers, `path, `events
      ensures State() == Complete(old(State()), seen)
    {
      var key := HeaderValue(WS_KEY);
      var host := HeaderValue(HOST);
      var event := HttpEvent(path, seen.upgrade != 0, seen.verb == HTTP_GET, key, host);
      Regroup(taken, events, [event]);
      events := events + [event];
      path := [];
      parsingValue := false;
      headers := map[];
      currentHeader := [];
    }

    /** Goes through the headers, in whatever order. */
    method HeaderValue(name: seq<byte>) returns (value: seq<byte>)
      requires NoNul(name)
      ensures value == Lookup(headers, name)
    {
      var found := false;
      value := [];
      var left := headers.Keys;
      ghost var hit: seq<byte> := [];
      while left != {}
        invariant left <= headers.Keys
        invariant if found then hit in headers && hit !in left && BeginsNoCase(hit, name) && value == headers[hit]
                  else value == []
        invariant forall key | key in headers && key !in left && BeginsNoCase(key, name) :: found && key == hit
        decreases left
      {
        var key :| key in left;
        left := left - {key};
        var like := StringEqualNoCaseN(key, name, |name|);
        BeginsIsEqualN(key, name);
        if like {
          if found {
            assert forall only :: OnlyKey(headers, name, only) ==> only == key && only == hit;
            return [];
          }
          value := headers[key];
          hit := key;
          found := true;
        }
      }
      if found {
        assert OnlyKey(headers, name, hit);
      }
    }

    /** One callback of the parser; those the handler does not set do nothing. */
    method Call(call: Call)
      modifies `parsingValue, `currentHeader, `headers, `path, `events
      ensures State() == GatherCall(old(State()), call)
    {
      match call
      case Data(kind, octets, _) =>
        if kind.UrlSpan? {
          OnPath(octets);
        } else if kind.FieldSpan? {
          OnHeaderField(octets);
        } else if kind.ValueSpan? {
          OnHeaderValue(octets);
        }
      case Told(mark, seen) =>
        if mark.MessageComplete? {
          OnMessageComplete(seen);
        }
    }

    /** The callbacks the parser made from number `from` on. */
    method Callbacks(from: nat)
      requires from <= |parser.calls| && State() == GatherCalls(parser.calls[..from])
      modifies `parsingValue, `currentHeader, `headers, `path, `events
      ensures State() == GatherCalls(parser.calls)
    {
      var i := from;
      while i < |parser.calls|
        invariant from <= i <= |parser.calls| && State() == GatherCalls(parser.calls[..i])
      {
        assert parser.calls[..i + 1][..i] == parser.calls[..i];
        Call(parser.calls[i]);
        i := i + 1;
      }
      assert parser.calls[..i] == parser.calls;
    }

    /** The parser over one read, and its callbacks. */
    method Feed(data: seq<byte>) returns (err: int)
      requires Valid()
      modifies this, parser
      ensures parser.Valid() && Paired(parser.calls) && State() == GatherCalls(parser.calls)
      ensures State().events == Requests(HearAll(parser.calls).out)
      ensures taken == old(taken) && delivered == old(delivered) && err == parser.error
      ensures old(parser.error) != 0 ==> err == old(parser.error) && events == []
      ensures old(parser.error) == 0 ==>
        && parser.program.WellFormed() && parser.program.Ready(old(parser.Abs()))
        && var o := parser.program.Run(parser.reply, old(parser.Abs()), data);
           parser.Executed(old(parser.Abs()), o, |data|) && (err == HPE_OK <==> o.Running?)
    {
      hide Program.Run, Program.Ready, Program.WellFormed, GatherCalls, GatherEvents, HearAll, Paired, GatherOpen;
      ghost var was := parser.calls;
      if parser.error == HPE_OK {
        parser.program.RunStops(parser.reply, parser.Abs(), data);
      }
      var from := |parser.calls|;
      err := parser.Execute(data);
      assert parser.calls[..from] == was;
      Callbacks(from);
      GatheredWhole(parser.calls);
      EventsWhole(GatherEvents(HearAll(parser.calls).out), HearAll(parser.calls).open);
      assert old(parser.error) != 0 ==> State() == old(State());
    }

    /** The handler after a read over which the parser's run went as `o`. */
    ghost predicate Served(o: Outcome, was: seq<HttpEvent>, told: seq<Delivery>)
      reads this, parser
    {
      && taken == Requests(o.c.out) && was <= taken
      && parser.error == (if Refused(o) then o.code else 0)
      && (o.Running? || !o.c.place.Fail? ==> parser.Abs() == o.c)
      && delivered == told + (if Refused(o) then [HandshakeCancelled] else []) + Deliver(taken[|was|..])
    }

    /** A read that ends in an error is answered once more, before its requests. */
    ghost function Cancelled(): nat
      reads parser
    {
      if parser.error != 0 then 1 else 0
    }

    /** One read from the connection. Octets behind an upgrade, or behind an error, are dropped. */
    method OnData(data: seq<byte>)
      requires Valid()
      modifies this, parser
      ensures Valid()
      ensures old(parser.error) != 0 ==>
        && parser.error == old(parser.error) && taken == old(taken)
        && delivered == old(delivered) + [HandshakeCancelled]
      ensures old(parser.error) == 0 ==>
        && parser.program.WellFormed() && parser.program.Ready(old(parser.Abs()))
        && Served(parser.program.Run(parser.reply, old(parser.Abs()), data), old(taken), old(delivered))
      ensures old(parser.error) == 0 ==>
        && |old(taken)| <= |taken| && |old(delivered)| + Cancelled() <= |delivered|
        && AllAnswered(taken[|old(taken)|..], delivered[|old(delivered)| + Cancelled()..])
    {
      hide Program.Run, Program.Ready, Program.WellFormed, GatherCalls, GatherEvents, HearAll, Paired;
      hide Honest, AllAnswered;
      ghost var before, told := taken, delivered;
      var err := Feed(data);
      Settle(err);
      var now := TakeEvents();
      assert taken[|before|..] == now;
      ghost var n := |delivered|;
      HandleEvents(now);
      assert before + [] == before && told + [] == told;
      HonestRead(before, now, told, delivered[n..]);
    }

    /** What is done about the parser's answer before the requests are. */
    method Settle(err: int)
      requires parser.Valid() && err == parser.error
      modifies `delivered, parser`error
      ensures parser.Valid() && parser.Abs() == old(parser.Abs())
      ensures parser.error == if err == HPE_PAUSED_UPGRADE then 0 else err
      ensures delivered == old(delivered) + if parser.error != 0 then [HandshakeCancelled] else []
    {
      var result := err;
      if result == HPE_PAUSED_UPGRADE {
        result := HPE_OK;
        parser.ResumeAfterUpgrade();
      }
      if result != HPE_OK {
        delivered := delivered + [HandshakeCancelled];
      }
      assert delivered + [] == delivered;
    }

    /** Swap the requests out. */
    method TakeEvents() returns (now: seq<HttpEvent>)
      modifies `events, `taken
      ensures now == old(events) && events == [] && taken == old(taken) + now && State() == old(State())
    {
      now := events;
      events := [];
      taken := taken + now;
      assert taken + [] == taken;
    }

    /** The loop over the requests just read. */
    method HandleEvents(now: seq<HttpEvent>)
      modifies `delivered
      ensures delivered == old(delivered) + Deliver(now)
      ensures AllAnswered(now, delivered[|old(delivered)|..])
      ensures Honest(now, delivered[|old(delivered)|..])
    {
      hide Answers, Honest, Backed, AllowedHost;
      ghost var k := DeliverAnswers(now);
      DeliverHonest(now);
      assert (delivered + Deliver(now))[|delivered|..] == Deliver(now);
      var i := 0;
      while i < |now|
        invariant 0 <= i <= |now|
        invariant old(delivered) + Deliver(now) == delivered + Deliver(now[i..])
      {
        var e := now[i];
        assert now[i..][1..] == now[i + 1..];
        var allowed := IsAllowedHost(e.host);
        if !allowed || !e.isGet {
          delivered := delivered + [HandshakeCancelled];
          return;
        } else if !e.upgrade {
          Regroup(delivered, [HttpGet(e.host, e.path)], Deliver(now[i + 1..]));
          delivered := delivered + [HttpGet(e.host, e.path)];
        } else if e.wsKey == [] {
          delivered := delivered + [HandshakeCancelled];
          return;
        } else {
          Regroup(delivered, [SocketUpgrade(e.host, e.path, e.wsKey)], Deliver(now[i + 1..]));
          delivered := delivered + [SocketUpgrade(e.host, e.path, e.wsKey)];
        }
        i := i + 1;
      }
    }

    /** The read loop of the connection, up to a read that ends in an error or an upgrade: however the octets were cut
        into reads, the requests are those of the octets in one piece; and what is delivered is what each read delivers of
        the requests it completes. */
    method ReadAll(pieces: seq<seq<byte>>)
      requires Valid() && parser.error == 0 && |pieces| > 0
      requires parser.program.WellFormed() && parser.program.Ready(parser.Abs())
      requires parser.program.RunPieces(parser.reply, parser.Abs(), pieces[..|pieces| - 1]).Running?
      modifies this, parser
      ensures Valid() && old(taken) <= taken
      ensures taken == Requests(parser.program.Run(parser.reply, old(parser.Abs()), Flatten(pieces)).c.out)
      ensures delivered == old(delivered) + ReadsDeliver(parser.program, parser.reply, old(parser.Abs()), pieces)
      decreases |pieces|
    {
      parser.program.RunFirst(parser.reply, parser.Abs(), pieces);
      ghost var c, told := parser.Abs(), delivered;
      TakenIs();
      OnData(pieces[0]);
      ghost var o := parser.program.Run(parser.reply, c, pieces[0]);
      assert delivered == told + ReadDelivers(o, Requests(c.out)) by {
        Regroup(told, if Refused(o) then [HandshakeCancelled] else [], Deliver(taken[|Requests(c.out)|..]));
      }
      if |pieces| > 1 {
        ReadAll(pieces[1..]);
        Regroup(told, ReadDelivers(o, Requests(c.out)), ReadsDeliver(parser.program, parser.reply, o.c, pieces[1..]));
      } else {
        assert ReadDelivers(o, Requests(c.out)) + [] == ReadDelivers(o, Requests(c.out));
        assert ReadsDeliver(parser.program, parser.reply, o.c, pieces[1..]) == [];
      }
    }

    /** Nothing is waiting between two reads. */
    lemma TakenIs()
      requires Valid()
      ensures taken == Requests(parser.Abs().out)
    {
      GatheredWhole(parser.calls);
      EventsWhole(GatherEvents(HearAll(parser.calls).out), HearAll(parser.calls).open);
      assert taken + [] == taken;
    }
  }

  // ---------------------------------------------------------------- reads in a row

  function Since(was: seq<HttpEvent>, now: seq<HttpEvent>): seq<HttpEvent> {
    if |was| <= |now| then now[|was|..] else []
  }

  /** What one read delivers over which the parser's run went as `o`. */
  ghost function ReadDelivers(o: Outcome, was: seq<HttpEvent>): seq<Delivery> {
    (if Refused(o) then [HandshakeCancelled] else []) + Deliver(Since(was, Requests(o.c.out)))
  }

  /** What the reads of a connection deliver, each what it completes. */
  ghost function ReadsDeliver(p: Program, r: Reply, c: Config, pieces: seq<seq<byte>>): seq<Delivery>
    requires p.WellFormed() && p.Ready(c)
    decreases |pieces|
  {
    if |pieces| == 0 then []
    else
      var o := p.Run(r, c, pieces[0]);
      ReadDelivers(o, Requests(c.out)) + if o.Running? then ReadsDeliver(p, r, o.c, pieces[1..]) else []
  }

  lemma SinceTwice(a: seq<HttpEvent>, b: seq<HttpEvent>, c: seq<HttpEvent>)
    requires a <= b <= c
    ensures Since(a, c) == Since(a, b) + Since(b, c)
  {
  }

  /** The events that calls report only grow. */
  lemma {:induction false} RequestsGrow(out: seq<Event>, more: seq<Event>)
    ensures Requests(out) <= Requests(out + more)
    decreases |more|
  {
    if |more| == 0 {
      assert out + more == out;
    } else {
      var n := |more| - 1;
      assert out + more == out + more[..n] + [more[n]];
      RequestsGrow(out, more[..n]);
      GatherOneMore(out + more[..n], more[n]);
    }
  }

  lemma ServedBoth(a: seq<HttpEvent>, b: seq<HttpEvent>)
    ensures AllServed(a + b) <==> AllServed(a) && AllServed(b)
  {
    assert forall e :: e in a + b <==> e in a || e in b;
  }

  /** A run only adds requests. */
  lemma RunGrows(p: Program, r: Reply, c: Config, input: seq<byte>)
    requires p.WellFormed() && p.Ready(c)
    ensures Requests(c.out) <= Requests(p.Run(r, c, input).c.out)
  {
    RunSpan(p, r, c, input);
    var out, all := c.out, p.Run(r, c, input).c.out;
    assert out + all[|out|..] == all;
    RequestsGrow(out, all[|out|..]);
  }

  lemma LastRead(o: Outcome, was: seq<HttpEvent>)
    requires !Refused(o)
    ensures ReadDelivers(o, was) == Deliver(Since(was, Requests(o.c.out)))
    ensures ReadDelivers(o, was) + [] == ReadDelivers(o, was)
  {
    assert [] + Deliver(Since(was, Requests(o.c.out))) == Deliver(Since(was, Requests(o.c.out)));
  }

  lemma OnePiece(p: Program, r: Reply, c: Config, a: seq<byte>)
    requires p.WellFormed() && p.Ready(c) && p.Run(r, c, a).Running?
    ensures ReadsDeliver(p, r, c, [a]) == Deliver(Since(Requests(c.out), Requests(p.Run(r, c, a).c.out)))
  {
    var o, none := p.Run(r, c, a), [a][1..];
    LastRead(o, Requests(c.out));
    assert none == [] && ReadsDeliver(p, r, o.c, none) == [];
  }

  lemma TwoPieces(p: Program, r: Reply, c: Config, a: seq<byte>, b: seq<byte>)
    requires p.WellFormed() && p.Ready(c) && p.Run(r, c, a).Running? && p.Run(r, p.Run(r, c, a).c, b).Running?
    ensures var d := p.Run(r, c, a).c; var e := p.Run(r, d, b).c;
      ReadsDeliver(p, r, c, [a, b])
        == Deliver(Since(Requests(c.out), Requests(d.out))) + Deliver(Since(Requests(d.out), Requests(e.out)))
  {
    var o := p.Run(r, c, a);
    LastRead(o, Requests(c.out));
    assert [a, b][1..] == [b];
    OnePiece(p, r, o.c, b);
  }

  /** Requests that are all served are delivered as if they had come in one read. */
  lemma {:induction false} ServedReads(p: Program, r: Reply, c: Config, pieces: seq<seq<byte>>)
    requires p.WellFormed() && p.Ready(c) && |pieces| > 0
    requires p.RunPieces(r, c, pieces[..|pieces| - 1]).Running?
    ensures var o := p.Run(r, c, Flatten(pieces)); var now := Since(Requests(c.out), Requests(o.c.out));
      !Refused(o) && AllServed(now) ==> ReadsDeliver(p, r, c, pieces) == Deliver(now)
    decreases |pieces|
  {
    p.RunFirst(r, c, pieces);
    var all, o := p.Run(r, c, Flatten(pieces)), p.Run(r, c, pieces[0]);
    if !Refused(all) && AllServed(Since(Requests(c.out), Requests(all.c.out))) {
      LastRead(o, Requests(c.out));
      if |pieces| > 1 {
        RunGrows(p, r, c, pieces[0]);
        RunGrows(p, r, o.c, Flatten(pieces[1..]));
        var was, first, last := Requests(c.out), Requests(o.c.out), Requests(all.c.out);
        SinceTwice(was, first, last);
        ServedBoth(Since(was, first), Since(first, last));
        ServedReads(p, r, o.c, pieces[1..]);
        DeliverSplit(Since(was, first), Since(first, last));
      }
    }
  }

  /** A run that ends in anything but an upgrade ends the handshake. */
  predicate Refused(o: Outcome) {
    o.Stopped? && o.code != HPE_PAUSED_UPGRADE
  }
}
