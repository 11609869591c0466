/** The tables put together, and what the whole-machine arguments need of them: where a span is open, and a rank that
    every edge without input lowers. */
module LlhttpProgram {
  import opened Bytes
  import opened LlhttpTypes
  import opened LlhttpTables
  import opened Llparse

  /** The span that is open at a label. */
  function SpanOf(l: Label): SpanKind {
    match l
    case Line(x) => if x.ResStatus? then StatusSpan else NoSpan
    case Url(x) => if OutsideUrl(x) then NoSpan else UrlSpan
    case Field(x) =>
      if x.HeaderFieldStart? || x.SpanStartHeaderField? || x.HeadersAlmostDone? then NoSpan else FieldSpan
    case Value(x) => if OutsideValue(x) then NoSpan else ValueSpan
    case Conn(_) => ValueSpan
    case Body(x) => if InBody(x) then BodySpan else NoSpan
    case _ => NoSpan
  }

  predicate OutsideUrl(l: UrlLabel) {
    || l.SpanStartUrl? || l.SpanStartUrl1?
    || l.UrlSkipToHttp09? || l.UrlSkipLfToHttp09? || l.UrlSkipToHttp? || l.UpdateHttp09?
  }

  predicate OutsideValue(l: ValueLabel) {
    || l.HeaderValueDiscardWs? || l.HeaderValueDiscardWsAlmostDone? || l.HeaderValueDiscardLws?
    || l.LoadHeaderState? || l.SpanStartHeaderValue? || l.SpanStartHeaderValue1?
    || l.HeaderValueAlmostDone? || l.HeaderValueLws? || l.LoadHeaderState2?
  }

  predicate InBody(l: BodyLabel) {
    || l.ConsumeContentLength? || l.SpanEndBody? || l.ConsumeContentLength1? || l.SpanEndBody1?
    || l.UpdateFinish1? || l.Eof?
  }

  /** Decreases along every edge that takes no octet. */
  function Rank(l: Label): nat {
    match l
    case Begin(x) => BeginRank(x)
    case Line(x) => LineRank(x)
    case Url(x) => UrlRank(x)
    case Field(x) => FieldRank(x)
    case Value(x) => ValueRank(x)
    case Conn(x) => ConnRank(x)
    case Msg(x) => MsgRank(x)
    case Body(x) => BodyRank(x)
    case Fail(_, _) => 0
  }

  function BeginRank(l: BeginLabel): nat {
    match l
    case Start => 220
    case UpdateFinish => 219
    case OnMessageBegin => 218
    case LoadType => 217
    case StartReqOrRes => 216
    case UpdateType2 => 215
    case StartReq(_) => 214
    case ReqSpacesBeforeUrl => 213
    case IsEqualMethod => 212
    case StoreMethod(_) => 211
    case UpdateType1 => 211
    case StoreMethod1(_) => 211
    case _ => 205
  }

  function LineRank(l: LineLabel): nat {
    match l
    case IsEqualMethod1 => 182
    case StoreHttpMajor(_) => 182
    case StoreHttpMinor(_) => 182
    case StoreHttpMajor1(_) => 182
    case StoreHttpMinor1(_) => 182
    case UpdateStatusCode => 182
    case MulAddStatusCode(_) => 182
    case ResStatusCode => 181
    case ResStatusCodeOtherwise => 180
    case ResStatusStart => 179
    case SpanStartStatus => 178
    case _ => 175
  }

  function UrlRank(l: UrlLabel): nat {
    match l
    case SpanStartUrl => 170
    case SpanStartUrl1 => 170
    case UrlStart => 169
    case UrlPath => 168
    case UrlSchema => 168
    case UrlServer => 167
    case UrlServerWithAt => 167
    case UrlQueryOrFragment => 167
    case UrlQuery => 167
    case UrlFragment => 167
    case SpanEndUrlHttp09 => 165
    case SpanEndUrlLfHttp09 => 165
    case SpanEndUrlHttp => 165
    case _ => 160
  }

  function FieldRank(l: FieldLabel): nat {
    match l
    case HeaderFieldStart => 75
    case SpanStartHeaderField => 74
    case StoreHeaderState(_) => 72
    case HeaderFieldColon => 71
    case ClearHeaderState => 70
    case HeaderFieldGeneral => 69
    case HeaderFieldGeneralOtherwise => 68
    case HeadersAlmostDone => 65
    case _ => 73
  }

  function ValueRank(l: ValueLabel): nat {
    match l
    case HeaderValueDiscardLws => 110
    case LoadHeaderState => 109
    case SpanStartHeaderValue => 108
    case SpanEndHeaderValue => 107
    case HeaderValueDiscardWs => 110
    case HeaderValueLws => 110
    case LoadHeaderState2 => 109
    case SpanStartHeaderValue1 => 109
    case LoadHeaderState1 => 108
    case TestFlags2 => 107
    case MulAddContentLength1(_) => 107
    case HeaderValueContentLength => 106
    case HeaderValueContentLengthWs => 105
    case OrFlags15 => 104
    case HeaderValueTeChunked => 106
    case HeaderValueTeChunked1 => 106
    case UpdateHeaderState8 => 105
    case HeaderValueDiscardRws => 103
    case OrFlags16 => 103
    case UpdateHeaderState7 => 102
    case HeaderValue => 101
    case HeaderValueOtherwise => 50
    case SpanEndHeaderValue1 => 49
    case _ => 40
  }

  function ConnRank(l: ConnLabel): nat {
    match l
    case LoadHeaderState3 => 65
    case UpdateConnectionState(_) => 65
    case HeaderValueConnection => 64
    case HeaderValueConnectionWs => 63
    case ClearConnectionState => 62
    case HeaderValueConnectionToken => 61
    case _ => 64
  }

  function MsgRank(l: MsgLabel): nat {
    match l
    case TestFlags => 440
    case OnHeadersComplete => 439
    case UpdateUpgrade => 438
    case OrFlags1 => 437
    case AfterHeadersComplete => 436
    case IsEqualUpgrade => 379
    case Pause1 => 378
    case AfterMessageComplete => 377
    case _ => 380
  }

  function BodyRank(l: BodyLabel): nat {
    match l
    case SpanStartBody1 => 415
    case ConsumeContentLength1 => 414
    case SpanEndBody1 => 413
    case OnChunkComplete1 => 413
    case OnChunkComplete => 412
    case UpdateContentLength => 411
    case MulAddContentLength(_) => 411
    case ChunkSize => 410
    case OnChunkHeader => 410
    case IsEqualContentLength => 409
    case SpanStartBody => 408
    case ConsumeContentLength => 407
    case SpanEndBody => 406
    case SpanStartBody2 => 405
    case UpdateFinish1 => 404
    case _ => 400
  }

  // ---------------------------------------------------------------- the tables, group by group

  /** Going to `next` leaves the span `open` as it is. */
  predicate Keeps(open: SpanKind, next: Label) {
    if next.Fail? then FailCode(next.code) else SpanOf(next) == open
  }

  predicate EdgeKeeps(open: SpanKind, e: Edge) {
    if e.EndAndAdvance? then open == e.kind && !e.kind.NoSpan? && SpanOf(e.next).NoSpan? && !e.next.Fail?
    else Keeps(open, e.next)
  }

  predicate NodeKeeps(open: SpanKind, n: Node) {
    match n
    case Peek | Invoke => true
    case Match(_, _, hit, miss) => Keeps(open, hit) && Keeps(open, miss)
    case Consume(done) => Keeps(open, done)
    case SpanStart(kind, next) => open.NoSpan? && !kind.NoSpan? && SpanOf(next) == kind && !next.Fail?
    case SpanEnd(kind, next) =>
      open == kind && !kind.NoSpan? && SpanOf(next).NoSpan? && (next.Fail? ==> FailCode(next.code))
    case Callback(_, next, _, failCode, _) =>
      open.NoSpan? && SpanOf(next).NoSpan? && !next.Fail? && FailCode(failCode)
    case Pause(code, _, next) =>
      open.NoSpan? && SpanOf(next).NoSpan? && !next.Fail? && code == HPE_PAUSED_UPGRADE
    case Halt(_, _) => false
  }

  predicate NodeDown(rank: nat, n: Node) {
    match n
    case Match(_, _, _, miss) => Rank(miss) < rank
    case Consume(done) => Rank(done) < rank
    case SpanStart(_, next) => Rank(next) < rank
    case SpanEnd(_, next) => Rank(next) < rank
    case Callback(mark, next, _, _, _) =>
      Rank(next) < rank && (mark.HeadersComplete? ==> Rank(Msg(UpdateUpgrade)) < rank && Rank(Msg(OrFlags1)) < rank)
    case _ => true
  }

  lemma BeginNodes(l: BeginLabel)
    ensures NodeKeeps(SpanOf(Begin(l)), BeginNode(l))
    ensures NodeDown(Rank(Begin(l)), BeginNode(l))
  {
  }

  lemma LineNodes(l: LineLabel)
    ensures NodeKeeps(SpanOf(Line(l)), LineNode(l))
    ensures NodeDown(Rank(Line(l)), LineNode(l))
  {
  }

  lemma UrlNodes(l: UrlLabel)
    ensures NodeKeeps(SpanOf(Url(l)), UrlNode(l))
    ensures NodeDown(Rank(Url(l)), UrlNode(l))
  {
  }

  lemma FieldNodes(l: FieldLabel)
    ensures NodeKeeps(SpanOf(Field(l)), FieldNode(l))
    ensures NodeDown(Rank(Field(l)), FieldNode(l))
  {
  }

  lemma ValueNodeKeeps(l: ValueLabel)
    ensures NodeKeeps(SpanOf(Value(l)), ValueNode(l))
  {
  }

  lemma ValueNodes(l: ValueLabel)
    ensures NodeKeeps(SpanOf(Value(l)), ValueNode(l))
    ensures NodeDown(Rank(Value(l)), ValueNode(l))
  {
    hide NodeKeeps;
    ValueNodeKeeps(l);
  }

  lemma ConnNodes(l: ConnLabel)
    ensures NodeKeeps(SpanOf(Conn(l)), ConnNode(l))
    ensures NodeDown(Rank(Conn(l)), ConnNode(l))
  {
  }

  lemma MsgNodes(l: MsgLabel)
    ensures NodeKeeps(SpanOf(Msg(l)), MsgNode(l))
    ensures NodeDown(Rank(Msg(l)), MsgNode(l))
  {
  }

  lemma BodyNodeKeeps(l: BodyLabel)
    ensures NodeKeeps(SpanOf(Body(l)), BodyNode(l))
  {
  }

  lemma BodyNodes(l: BodyLabel)
    ensures NodeKeeps(SpanOf(Body(l)), BodyNode(l))
    ensures NodeDown(Rank(Body(l)), BodyNode(l))
  {
    hide NodeKeeps;
    BodyNodeKeeps(l);
  }

  lemma BeginEdgeSpans(l: BeginLabel, c: byte)
    ensures BeginNode(l).Peek? ==> EdgeKeeps(SpanOf(Begin(l)), BeginDispatch(l, c))
  {
  }

  lemma BeginEdgeRanks(l: BeginLabel, c: byte)
    ensures BeginNode(l).Peek? && BeginDispatch(l, c).Stay? ==> Rank(BeginDispatch(l, c).next) < Rank(Begin(l))
  {
  }

  lemma LineEdgeSpans(l: LineLabel, c: byte)
    ensures LineNode(l).Peek? ==> EdgeKeeps(SpanOf(Line(l)), LineDispatch(l, c))
  {
  }

  lemma LineEdgeRanks(l: LineLabel, c: byte)
    ensures LineNode(l).Peek? && LineDispatch(l, c).Stay? ==> Rank(LineDispatch(l, c).next) < Rank(Line(l))
  {
  }

  predicate InServer(l: UrlLabel) {
    l.UrlServer? || l.UrlServerWithAt? || l.UrlPath? || l.UrlQueryOrFragment? || l.UrlQuery? || l.UrlFragment?
  }

  lemma ServerEdgeSpans(l: UrlLabel, c: byte)
    requires InServer(l)
    ensures EdgeKeeps(SpanOf(Url(l)), UrlDispatch(l, c))
  {
  }

  lemma UrlEdgeSpans(l: UrlLabel, c: byte)
    ensures UrlNode(l).Peek? ==> EdgeKeeps(SpanOf(Url(l)), UrlDispatch(l, c))
  {
    hide EdgeKeeps, UrlDispatch, InServer;
    if InServer(l) {
      ServerEdgeSpans(l, c);
    } else {
      OtherUrlEdgeSpans(l, c);
    }
  }

  lemma OtherUrlEdgeSpans(l: UrlLabel, c: byte)
    requires !InServer(l)
    ensures UrlNode(l).Peek? ==> EdgeKeeps(SpanOf(Url(l)), UrlDispatch(l, c))
  {
  }

  lemma UrlEdgeRanks(l: UrlLabel, c: byte)
    ensures UrlNode(l).Peek? && UrlDispatch(l, c).Stay? ==> Rank(UrlDispatch(l, c).next) < Rank(Url(l))
  {
  }

  lemma FieldEdgeSpans(l: FieldLabel, c: byte)
    ensures FieldNode(l).Peek? ==> EdgeKeeps(SpanOf(Field(l)), FieldDispatch(l, c))
  {
  }

  lemma FieldEdgeRanks(l: FieldLabel, c: byte)
    ensures FieldNode(l).Peek? && FieldDispatch(l, c).Stay? ==> Rank(FieldDispatch(l, c).next) < Rank(Field(l))
  {
  }

  lemma ValueEdgeSpans(l: ValueLabel, c: byte)
    ensures ValueNode(l).Peek? ==> EdgeKeeps(SpanOf(Value(l)), ValueDispatch(l, c))
  {
  }

  lemma ValueEdgeRanks(l: ValueLabel, c: byte)
    ensures ValueNode(l).Peek? && ValueDispatch(l, c).Stay? ==> Rank(ValueDispatch(l, c).next) < Rank(Value(l))
  {
  }

  lemma ConnEdgeSpans(l: ConnLabel, c: byte)
    ensures ConnNode(l).Peek? ==> EdgeKeeps(SpanOf(Conn(l)), ConnDispatch(l, c))
  {
  }

  lemma ConnEdgeRanks(l: ConnLabel, c: byte)
    ensures ConnNode(l).Peek? && ConnDispatch(l, c).Stay? ==> Rank(ConnDispatch(l, c).next) < Rank(Conn(l))
  {
  }

  lemma BodyEdgeSpans(l: BodyLabel, c: byte)
    ensures BodyNode(l).Peek? ==> EdgeKeeps(SpanOf(Body(l)), BodyDispatch(l, c))
  {
  }

  lemma BodyEdgeRanks(l: BodyLabel, c: byte)
    ensures BodyNode(l).Peek? && BodyDispatch(l, c).Stay? ==> Rank(BodyDispatch(l, c).next) < Rank(Body(l))
  {
  }

  lemma BeginInvokes(l: BeginLabel, f: Fields)
    ensures BeginNode(l).Invoke? ==>
      var (h, next) := BeginInvoke(l, f);
      Keeps(SpanOf(Begin(l)), next) && Rank(next) < Rank(Begin(l)) && h.index == f.index
  {
  }

  lemma LineInvokes(l: LineLabel, f: Fields)
    ensures LineNode(l).Invoke? ==>
      var (h, next) := LineInvoke(l, f);
      Keeps(SpanOf(Line(l)), next) && Rank(next) < Rank(Line(l)) && h.index == f.index
  {
  }

  lemma UrlInvokes(l: UrlLabel, f: Fields)
    ensures UrlNode(l).Invoke? ==>
      var (h, next) := UrlInvoke(f);
      Keeps(SpanOf(Url(l)), next) && Rank(next) < Rank(Url(l)) && h.index == f.index
  {
  }

  lemma FieldInvokes(l: FieldLabel, f: Fields)
    ensures FieldNode(l).Invoke? ==>
      var (h, next) := FieldInvoke(l, f);
      Keeps(SpanOf(Field(l)), next) && Rank(next) < Rank(Field(l)) && h.index == f.index
  {
  }

  lemma ValueInvokeSpans(l: ValueLabel, f: Fields)
    ensures ValueNode(l).Invoke? ==>
      var (h, next) := ValueInvoke(l, f); Keeps(SpanOf(Value(l)), next) && h.index == f.index
  {
  }

  lemma ValueInvokeRanks(l: ValueLabel, f: Fields)
    ensures ValueNode(l).Invoke? ==> Rank(ValueInvoke(l, f).1) < Rank(Value(l))
  {
  }

  lemma ConnInvokes(l: ConnLabel, f: Fields)
    ensures ConnNode(l).Invoke? ==>
      var (h, next) := ConnInvoke(l, f);
      Keeps(SpanOf(Conn(l)), next) && Rank(next) < Rank(Conn(l)) && h.index == f.index
  {
  }

  lemma MsgInvokes(l: MsgLabel, f: Fields)
    ensures MsgNode(l).Invoke? ==>
      var (h, next) := MsgInvoke(l, f);
      Keeps(SpanOf(Msg(l)), next) && Rank(next) < Rank(Msg(l)) && h.index == f.index
  {
  }

  lemma BodyInvokes(l: BodyLabel, f: Fields)
    ensures BodyNode(l).Invoke? ==>
      var (h, next) := BodyInvoke(l, f);
      Keeps(SpanOf(Body(l)), next) && Rank(next) < Rank(Body(l)) && h.index == f.index
  {
  }

  // ---------------------------------------------------------------- the whole program

  /** llhttp__internal__run. */
  const LLHTTP: Program := Program(NodeOf, Dispatch, Invoked, Answered, Blob, SpanOf, Rank)

  lemma NodesFit(l: Label)
    ensures l.Fail? || (NodeKeeps(SpanOf(l), NodeOf(l)) && NodeDown(Rank(l), NodeOf(l)))
  {
    match l
    case Begin(x) => BeginNodes(x);
    case Line(x) => LineNodes(x);
    case Url(x) => UrlNodes(x);
    case Field(x) => FieldNodes(x);
    case Value(x) => ValueNodes(x);
    case Conn(x) => ConnNodes(x);
    case Msg(x) => MsgNodes(x);
    case Body(x) => BodyNodes(x);
    case Fail(_, _) =>
  }

  lemma EdgesFit(l: Label, c: byte)
    requires NodeOf(l).Peek?
    ensures EdgeKeeps(SpanOf(l), Dispatch(l, c))
    ensures Dispatch(l, c).Stay? ==> Rank(Dispatch(l, c).next) < Rank(l)
  {
    match l
    case Begin(x) => BeginEdgeSpans(x, c); BeginEdgeRanks(x, c);
    case Line(x) => LineEdgeSpans(x, c); LineEdgeRanks(x, c);
    case Url(x) => UrlEdgeSpans(x, c); UrlEdgeRanks(x, c);
    case Field(x) => FieldEdgeSpans(x, c); FieldEdgeRanks(x, c);
    case Value(x) => ValueEdgeSpans(x, c); ValueEdgeRanks(x, c);
    case Conn(x) => ConnEdgeSpans(x, c); ConnEdgeRanks(x, c);
    case Body(x) => BodyEdgeSpans(x, c); BodyEdgeRanks(x, c);
    case Msg(x) => MsgNodes(x);
    case Fail(_, _) =>
  }

  lemma InvokesFit(l: Label, f: Fields)
    requires NodeOf(l).Invoke?
    ensures var (h, next) := Invoked(l, f);
      Keeps(SpanOf(l), next) && Rank(next) < Rank(l) && h.index == f.index
  {
    match l
    case Begin(x) => BeginInvokes(x, f);
    case Line(x) => LineInvokes(x, f);
    case Url(x) => UrlInvokes(x, f);
    case Field(x) => FieldInvokes(x, f);
    case Value(x) => ValueInvokeSpans(x, f); ValueInvokeRanks(x, f);
    case Conn(x) => ConnInvokes(x, f);
    case Msg(x) => MsgInvokes(x, f);
    case Body(x) => BodyInvokes(x, f);
    case Fail(_, _) =>
  }

  /** The counter stays a 64-bit number, and `finish` one of its values. */
  lemma InvokedInRange(l: Label, f: Fields)
    requires InRange(f)
    ensures InRange(Invoked(l, f).0)
  {
    match l
    case Begin(x) => assert InRange(BeginInvoke(x, f).0);
    case Line(x) => assert InRange(LineInvoke(x, f).0);
    case Url(_) => assert InRange(UrlInvoke(f).0);
    case Field(x) => assert InRange(FieldInvoke(x, f).0);
    case Value(x) => assert InRange(ValueInvoke(x, f).0);
    case Conn(x) => assert InRange(ConnInvoke(x, f).0);
    case Msg(x) => assert InRange(MsgInvoke(x, f).0);
    case Body(x) => assert InRange(BodyInvoke(x, f).0);
    case Fail(_, _) =>
  }

  lemma AnswersFit(l: Label, answer: int)
    ensures LLHTTP.AnswerOk(l, answer)
  {
    if NodeOf(l).Callback? {
      NodesFit(l);
    }
  }

  /** The HTTP program is one the general results apply to: spans open and close where they should, and no edge loops
      without taking an octet. */
  lemma LlhttpWellFormed()
    ensures LLHTTP.WellFormed()
  {
    forall l {:trigger LLHTTP.node(l)}
      ensures LLHTTP.NodeSpan(l, LLHTTP.node(l)) && LLHTTP.NodeRank(l, LLHTTP.node(l))
      ensures l.Fail? ==> LLHTTP.node(l).Halt?
    {
      NodesFit(l);
    }
    forall l, c {:trigger LLHTTP.dispatch(l, c)} | LLHTTP.node(l).Peek?
      ensures LLHTTP.EdgeSpan(l, LLHTTP.dispatch(l, c)) && LLHTTP.EdgeRank(l, LLHTTP.dispatch(l, c))
    {
      EdgesFit(l, c);
    }
    forall l, f {:trigger LLHTTP.invoke(l, f)} | LLHTTP.node(l).Invoke?
      ensures LLHTTP.InvokeOk(l, f, LLHTTP.invoke(l, f).0, LLHTTP.invoke(l, f).1)
    {
      InvokesFit(l, f);
      if InRange(f) {
        InvokedInRange(l, f);
      }
    }
    forall l, answer
      ensures LLHTTP.AnswerOk(l, answer)
    {
      AnswersFit(l, answer);
    }
    forall k
      ensures LLHTTP.WordOk(k)
    {
      assert |Blob(k)| > 0;
    }
  }

  // ---------------------------------------------------------------- runs of the HTTP parser

  /** A configuration the HTTP parser can be in. */
  predicate HttpReady(c: Config) {
    LLHTTP.Ready(c)
  }

  /** A run of the HTTP parser from such a configuration; no other takes an octet. */
  function HttpRun(r: Reply, c: Config, input: seq<byte>): (o: Outcome)
    ensures HttpReady(c) ==> HttpReady(o.c)
  {
    LlhttpWellFormed();
    if HttpReady(c) then LLHTTP.Run(r, c, input) else Running(c)
  }

  /** A run, one step on. */
  lemma HttpOn(r: Reply, c: Config, input: seq<byte>)
    requires HttpReady(c)
    ensures var m := LLHTTP.Step(r, c, Ahead(input));
      && (m.Go? ==> HttpReady(m.to) && HttpRun(r, c, input) == HttpRun(r, m.to, if m.took then input[1..] else input))
      && (m.Go? && m.took ==> |input| > 0)
      && (m.Wait? ==> |input| == 0 && HttpRun(r, c, input) == Running(c))
      && (m.Stop? ==> HttpRun(r, c, input) == Stopped(m.code, m.reason, m.at, input))
  {
    LlhttpWellFormed();
    LLHTTP.RunOn(r, c, input);
  }

  /** A run that takes one octet. */
  lemma Take(r: Reply, c: Config, input: seq<byte>, to: Config)
    requires HttpReady(c) && |input| > 0 && LLHTTP.Step(r, c, Some(input[0])) == Go(to, true)
    ensures HttpReady(to) && HttpRun(r, c, input) == HttpRun(r, to, input[1..])
  {
    HttpOn(r, c, input);
  }

  /** A run that takes one step and no octet. */
  lemma Slide(r: Reply, c: Config, input: seq<byte>, to: Config)
    requires HttpReady(c) && LLHTTP.Step(r, c, Ahead(input)) == Go(to, false)
    ensures HttpReady(to) && HttpRun(r, c, input) == HttpRun(r, to, input)
  {
    HttpOn(r, c, input);
  }

  /** A caller whose callbacks all say: go on. */
  function Proceed(mark: Mark, seen: Fields): int {
    0
  }

  const GO_ON: Reply := Proceed
}
