/** The goto program of llhttp__internal__run as tables: the shape of every block, where each octet leads, and what the
    blocks without input do to the fields. */
module LlhttpTables {
  import opened Bytes
  import opened LlhttpTypes

  const TAB: byte := 0x09
  const LF: byte := 0x0a
  const FF: byte := 0x0c
  const CR: byte := 0x0d
  const SP: byte := 0x20

  // ---------------------------------------------------------------- octet classes

  /** The value of a decimal digit, if it is one. */
  function Decimal(c: byte): (d: Option<nat>)
    ensures d.Some? ==> d.value < 10
  {
    if c == 0x30 then Some(0) else if c == 0x31 then Some(1) else if c == 0x32 then Some(2)
    else if c == 0x33 then Some(3) else if c == 0x34 then Some(4) else if c == 0x35 then Some(5)
    else if c == 0x36 then Some(6) else if c == 0x37 then Some(7) else if c == 0x38 then Some(8)
    else if c == 0x39 then Some(9) else None
  }

  /** The value of a hexadecimal digit of either case, if it is one. */
  function Hexadecimal(c: byte): (d: Option<nat>)
    ensures d.Some? ==> d.value < 16
  {
    if Decimal(c).Some? then Decimal(c)
    else if c == 0x41 || c == 0x61 then Some(10) else if c == 0x42 || c == 0x62 then Some(11)
    else if c == 0x43 || c == 0x63 then Some(12) else if c == 0x44 || c == 0x64 then Some(13)
    else if c == 0x45 || c == 0x65 then Some(14) else if c == 0x46 || c == 0x66 then Some(15) else None
  }

  predicate IsAlpha(c: byte) {
    0x41 <= c <= 0x5a || 0x61 <= c <= 0x7a
  }

  /** lookup_table of header_field_general. */
  predicate IsFieldOctet(c: byte) {
    || IsAlpha(c)
    || 0x30 <= c <= 0x39
    || c == 0x20 || c == 0x21 || 0x23 <= c <= 0x27 || c == 0x2a || c == 0x2b || c == 0x2d || c == 0x2e
    || 0x5e <= c <= 0x60 || c == 0x7c || c == 0x7e
  }

  /** lookup_table of header_value. */
  predicate IsValueOctet(c: byte) {
    c == TAB || (0x20 <= c && c != 0x7f && c != 0xff)
  }

  /** What the tables of url_path, url_query and url_fragment have in common. */
  predicate IsUrlOctet(c: byte) {
    c == TAB || c == FF || (0x21 <= c && c != 0x7c && c != 0x7f)
  }

  /** lookup_table of url_server, value 4. */
  predicate IsServerOctet(c: byte) {
    || IsAlpha(c)
    || 0x30 <= c <= 0x3b
    || c == 0x21 || 0x24 <= c <= 0x2e || c == 0x3d || c == 0x5b || c == 0x5d || c == 0x5f || c == 0x7e
  }

  /** llparse_blob0 .. llparse_blob47: the words the parser matches octet by octet. */
  function Blob(k: nat): (word: seq<byte>)
    ensures |word| > 0
  {
    match k
    case 0 => [0x43, 0x4c] // CL
    case 1 => [0x6f, 0x6e] // on
    case 2 => [0x65, 0x63, 0x74, 0x69, 0x6f, 0x6e] // ection
    case 3 => [0x6c, 0x6f, 0x73, 0x65] // lose
    case 4 => [0x65, 0x65, 0x70, 0x2d, 0x61, 0x6c, 0x69, 0x76, 0x65] // eep-alive
    case 5 => [0x70, 0x67, 0x72, 0x61, 0x64, 0x65] // pgrade
    case 6 => [0x68, 0x75, 0x6e, 0x6b, 0x65, 0x64] // hunked
    case 7 => [0x65, 0x6e, 0x74, 0x2d, 0x6c, 0x65, 0x6e, 0x67, 0x74, 0x68] // ent-length
    case 8 => [0x72, 0x6f, 0x78, 0x79, 0x2d, 0x63, 0x6f, 0x6e, 0x6e, 0x65, 0x63, 0x74, 0x69, 0x6f, 0x6e] // roxy-connection
    case 9 => [0x72, 0x61, 0x6e, 0x73, 0x66, 0x65, 0x72, 0x2d, 0x65, 0x6e, 0x63, 0x6f, 0x64, 0x69, 0x6e, 0x67] // ransfer-encoding
    case 10 => [0x70, 0x67, 0x72, 0x61, 0x64, 0x65] // pgrade
    case 11 => [0x0d, 0x0a]
    case 12 => [0x54, 0x54, 0x50, 0x2f] // TTP/
    case 13 => [0x43, 0x45, 0x2f] // CE/
    case 14 => [0x49, 0x4e, 0x44] // IND
    case 15 => [0x45, 0x43, 0x4b, 0x4f, 0x55, 0x54] // ECKOUT
    case 16 => [0x4e, 0x45, 0x43, 0x54] // NECT
    case 17 => [0x45, 0x4c, 0x45, 0x54, 0x45] // ELETE
    case 18 => [0x45, 0x54] // ET
    case 19 => [0x45, 0x41, 0x44] // EAD
    case 20 => [0x4e, 0x4b] // NK
    case 21 => [0x43, 0x4b] // CK
    case 22 => [0x53, 0x45, 0x41, 0x52, 0x43, 0x48] // SEARCH
    case 23 => [0x52, 0x47, 0x45] // RGE
    case 24 => [0x43, 0x54, 0x49, 0x56, 0x49, 0x54, 0x59] // CTIVITY
    case 25 => [0x4c, 0x45, 0x4e, 0x44, 0x41, 0x52] // LENDAR
    case 26 => [0x56, 0x45] // VE
    case 27 => [0x4f, 0x54, 0x49, 0x46, 0x59] // OTIFY
    case 28 => [0x50, 0x54, 0x49, 0x4f, 0x4e, 0x53] // PTIONS
    case 29 => [0x54, 0x43, 0x48] // TCH
    case 30 => [0x53, 0x54] // ST
    case 31 => [0x4f, 0x50] // OP
    case 32 => [0x49, 0x4e, 0x44] // IND
    case 33 => [0x41, 0x54, 0x43, 0x48] // ATCH
    case 34 => [0x47, 0x45] // GE
    case 35 => [0x49, 0x4e, 0x44] // IND
    case 36 => [0x4f, 0x52, 0x54] // ORT
    case 37 => [0x41, 0x52, 0x43, 0x48] // ARCH
    case 38 => [0x55, 0x52, 0x43, 0x45] // URCE
    case 39 => [0x42, 0x53, 0x43, 0x52, 0x49, 0x42, 0x45] // BSCRIBE
    case 40 => [0x52, 0x41, 0x43, 0x45] // RACE
    case 41 => [0x49, 0x4e, 0x44] // IND
    case 42 => [0x4e, 0x4b] // NK
    case 43 => [0x43, 0x4b] // CK
    case 44 => [0x55, 0x42, 0x53, 0x43, 0x52, 0x49, 0x42, 0x45] // UBSCRIBE
    case 45 => [0x48, 0x54, 0x54, 0x50, 0x2f] // HTTP/
    case 46 => [0x41, 0x44] // AD
    case 47 => [0x54, 0x50, 0x2f] // TP/
    case _ => [0x00]
  }

  // ---------------------------------------------------------------- request methods

  /** A node of the method trie: a switch on one octet, or the rest of the only name left. */
  datatype TrieNode = Branch | Literal(blob: nat, target: TrieTarget)

  datatype TrieTarget = To(n: nat) | Accept(m: nat)

  /** The 49 nodes start_req_1 .. start_req_49; start_req itself is node 0. */
  function Trie(n: nat): TrieNode {
    match n
    case 1 => Literal(0, Accept(19)) // CL
    case 2 => Literal(14, Accept(16)) // IND
    case 4 => Literal(15, Accept(22)) // ECKOUT
    case 6 => Literal(16, Accept(5)) // NECT
    case 8 => Literal(17, Accept(0)) // ELETE
    case 9 => Literal(18, Accept(1)) // ET
    case 10 => Literal(19, Accept(2)) // EAD
    case 12 => Literal(20, Accept(31)) // NK
    case 13 => Literal(21, Accept(9)) // CK
    case 15 => Literal(22, Accept(24)) // SEARCH
    case 16 => Literal(23, Accept(23)) // RGE
    case 18 => Literal(24, Accept(21)) // CTIVITY
    case 20 => Literal(25, Accept(30)) // LENDAR
    case 22 => Literal(26, Accept(11)) // VE
    case 23 => Literal(27, Accept(25)) // OTIFY
    case 24 => Literal(28, Accept(6)) // PTIONS
    case 26 => Literal(29, Accept(28)) // TCH
    case 27 => Literal(30, Accept(3)) // ST
    case 28 => Literal(31, To(29)) // OP
    case 30 => Literal(32, Accept(12)) // IND
    case 31 => Literal(33, Accept(13)) // ATCH
    case 33 => Literal(34, Accept(29)) // GE
    case 36 => Literal(35, Accept(17)) // IND
    case 37 => Literal(36, Accept(20)) // ORT
    case 39 => Literal(37, Accept(14)) // ARCH
    case 40 => Literal(38, Accept(33)) // URCE
    case 41 => Literal(39, Accept(26)) // BSCRIBE
    case 42 => Literal(40, Accept(7)) // RACE
    case 45 => Literal(41, Accept(18)) // IND
    case 47 => Literal(42, Accept(32)) // NK
    case 48 => Literal(43, Accept(15)) // CK
    case 49 => Literal(44, Accept(27)) // UBSCRIBE
    case _ => Branch
  }

  /** Where the switch at a node leads. */
  function Arm(n: nat, c: byte): Option<TrieTarget> {
    match n
    case 0 =>
      if c == 0x41 then Some(To(1)) else if c == 0x42 then Some(To(2)) else if c == 0x43 then Some(To(3)) else
      if c == 0x44 then Some(To(8)) else if c == 0x47 then Some(To(9)) else if c == 0x48 then Some(To(10)) else
      if c == 0x4c then Some(To(11)) else if c == 0x4d then Some(To(14)) else if c == 0x4e then Some(To(23)) else
      if c == 0x4f then Some(To(24)) else if c == 0x50 then Some(To(25)) else if c == 0x52 then Some(To(34)) else
      if c == 0x53 then Some(To(38)) else if c == 0x54 then Some(To(42)) else
      if c == 0x55 then Some(To(43)) else None
    case 3 => if c == 0x48 then Some(To(4)) else if c == 0x4f then Some(To(5)) else None
    case 5 => if c == 0x4e then Some(To(6)) else if c == 0x50 then Some(To(7)) else None
    case 7 => if c == 0x59 then Some(Accept(8)) else None
    case 11 => if c == 0x49 then Some(To(12)) else if c == 0x4f then Some(To(13)) else None
    case 14 =>
      if c == 0x2d then Some(To(15)) else if c == 0x45 then Some(To(16)) else if c == 0x4b then Some(To(17)) else
      if c == 0x4f then Some(To(22)) else None
    case 17 => if c == 0x41 then Some(To(18)) else if c == 0x43 then Some(To(19)) else None
    case 19 => if c == 0x41 then Some(To(20)) else if c == 0x4f then Some(To(21)) else None
    case 21 => if c == 0x4c then Some(Accept(10)) else None
    case 25 =>
      if c == 0x41 then Some(To(26)) else if c == 0x4f then Some(To(27)) else if c == 0x52 then Some(To(28)) else
      if c == 0x55 then Some(To(32)) else None
    case 29 => if c == 0x46 then Some(To(30)) else if c == 0x50 then Some(To(31)) else None
    case 32 => if c == 0x52 then Some(To(33)) else if c == 0x54 then Some(Accept(4)) else None
    case 34 => if c == 0x45 then Some(To(35)) else None
    case 35 => if c == 0x42 then Some(To(36)) else if c == 0x50 then Some(To(37)) else None
    case 38 =>
      if c == 0x45 then Some(To(39)) else if c == 0x4f then Some(To(40)) else
      if c == 0x55 then Some(To(41)) else None
    case 43 => if c == 0x4e then Some(To(44)) else None
    case 44 =>
      if c == 0x42 then Some(To(45)) else if c == 0x4c then Some(To(46)) else
      if c == 0x53 then Some(To(49)) else None
    case 46 => if c == 0x49 then Some(To(47)) else if c == 0x4f then Some(To(48)) else None
    case _ => None
  }

  function TargetLabel(t: TrieTarget): Label {
    match t
    case To(n) => Begin(StartReq(n))
    case Accept(m) => Begin(StoreMethod1(m))
  }

  const INVALID_METHOD: Label := Fail(6, InvalidMethodEncountered)

  // ---------------------------------------------------------------- message start, method, version, status line

  function BeginNode(l: BeginLabel): Node {
    match l
    case UpdateFinish => Invoke
    case OnMessageBegin =>
      Callback(MessageBegin, Begin(LoadType), OnMessageBeginPause, 15, OnMessageBeginCallbackError)
    case LoadType => Invoke
    case UpdateType2 => Invoke
    case ReqOrResMethod2 => Match(46, false, Begin(StoreMethod(2)), Fail(8, InvalidWordEncountered)) // AD
    case ReqOrResMethod3 =>
      Match(47, false, Begin(UpdateType1), Fail(8, InvalidWordEncountered)) // TP/
    case StoreMethod(_) => Invoke
    case UpdateType1 => Invoke
    case StartReq(n) =>
      (match Trie(n)
       case Branch => Peek
       case Literal(blob, target) => Match(blob, false, TargetLabel(target), INVALID_METHOD))
    case StoreMethod1(_) => Invoke
    case IsEqualMethod => Invoke
    case _ => Peek
  }

  function LineNode(l: LineLabel): Node {
    match l
    case ReqHttpStart1 =>
      Match(12, false, Line(ReqHttpMajor), Fail(8, ExpectedHttp)) // TTP/
    case ReqHttpStart2 => Match(13, false, Line(IsEqualMethod1), Fail(8, ExpectedHttp)) // CE/
    case IsEqualMethod1 => Invoke
    case StoreHttpMajor(_) => Invoke
    case StoreHttpMinor(_) => Invoke
    case StartRes =>
      Match(45, false, Line(ResHttpMajor), Fail(8, ExpectedHttp)) // HTTP/
    case StoreHttpMajor1(_) => Invoke
    case StoreHttpMinor1(_) => Invoke
    case UpdateStatusCode => Invoke
    case MulAddStatusCode(_) => Invoke
    case SpanStartStatus => SpanStart(StatusSpan, Line(ResStatus))
    case _ => Peek
  }

  function BeginDispatch(l: BeginLabel, c: byte): Edge {
    match l
    case Start => if c == LF || c == CR then Advance(Begin(Start)) else Stay(Begin(UpdateFinish))
    case StartReqOrRes => if c == 0x48 then Stay(Begin(ReqOrResMethod)) else Stay(Begin(UpdateType2))
    case ReqOrResMethod =>
      if c == 0x48 then Advance(Begin(ReqOrResMethod1)) else Stay(Fail(8, InvalidWordEncountered))
    case ReqOrResMethod1 =>
      if c == 0x45 then Advance(Begin(ReqOrResMethod2))
      else if c == 0x54 then Advance(Begin(ReqOrResMethod3))
      else Stay(Fail(8, InvalidWordEncountered))
    case StartReq(n) =>
      (match Arm(n, c)
       case Some(t) => Advance(TargetLabel(t))
       case None => Stay(INVALID_METHOD))
    case ReqFirstSpaceBeforeUrl =>
      if c == SP then Advance(Begin(ReqSpacesBeforeUrl)) else Stay(Fail(6, ExpectedSpaceAfterMethod))
    case ReqSpacesBeforeUrl => if c == SP then Advance(Begin(ReqSpacesBeforeUrl)) else Stay(Begin(IsEqualMethod))
    case _ => Stay(Begin(Start)) // not a Peek block
  }

  function LineDispatch(l: LineLabel, c: byte): Edge {
    match l
    case ReqHttpStart =>
      if c == SP then Advance(Line(ReqHttpStart))
      else if c == 0x48 then Advance(Line(ReqHttpStart1))
      else if c == 0x49 then Advance(Line(ReqHttpStart2))
      else Stay(Fail(8, ExpectedHttp))
    case ReqHttpMajor =>
      (match Decimal(c) case Some(d) => Advance(Line(StoreHttpMajor(d))) case None => Stay(Fail(9, InvalidMajorVersion)))
    case ReqHttpDot => if c == 0x2e then Advance(Line(ReqHttpMinor)) else Stay(Fail(9, ExpectedDot))
    case ReqHttpMinor =>
      (match Decimal(c) case Some(d) => Advance(Line(StoreHttpMinor(d))) case None => Stay(Fail(9, InvalidMinorVersion)))
    case ReqHttpEnd =>
      if c == LF then Advance(Field(HeaderFieldStart))
      else if c == CR then Advance(Line(ReqHttpEnd1))
      else Stay(Fail(9, ExpectedCrlfAfterVersion))
    case ReqHttpEnd1 =>
      if c == LF then Advance(Field(HeaderFieldStart)) else Stay(Fail(9, ExpectedCrlfAfterVersion))
    case ResHttpMajor =>
      (match Decimal(c) case Some(d) => Advance(Line(StoreHttpMajor1(d))) case None => Stay(Fail(9, InvalidMajorVersion)))
    case ResHttpDot => if c == 0x2e then Advance(Line(ResHttpMinor)) else Stay(Fail(9, ExpectedDot))
    case ResHttpMinor =>
      (match Decimal(c) case Some(d) => Advance(Line(StoreHttpMinor1(d))) case None => Stay(Fail(9, InvalidMinorVersion)))
    case ResHttpEnd =>
      if c == SP then Advance(Line(UpdateStatusCode)) else Stay(Fail(9, ExpectedSpaceAfterVersion))
    case ResStatusCode =>
      (match Decimal(c)
       case Some(d) => Advance(Line(MulAddStatusCode(d)))
       case None => Stay(Line(ResStatusCodeOtherwise)))
    case ResStatusCodeOtherwise =>
      if c == LF || c == CR then Stay(Line(ResStatusStart))
      else if c == SP then Advance(Line(ResStatusStart))
      else Stay(Fail(13, InvalidResponseStatus))
    case ResStatusStart =>
      if c == LF then Advance(Field(HeaderFieldStart))
      else if c == CR then Advance(Line(ResLineAlmostDone))
      else Stay(Line(SpanStartStatus))
    case ResStatus =>
      if c == LF then EndAndAdvance(StatusSpan, Field(HeaderFieldStart))
      else if c == CR then EndAndAdvance(StatusSpan, Line(ResLineAlmostDone))
      else Advance(Line(ResStatus))
    case _ => Advance(Field(HeaderFieldStart)) // ResLineAlmostDone
  }

  function BeginInvoke(l: BeginLabel, f: Fields): (Fields, Label) {
    match l
    case UpdateFinish => (f.(finish := 2), Begin(OnMessageBegin))
    case LoadType =>
      (f, if f.typ == HTTP_REQUEST then Begin(StartReq(0))
          else if f.typ == HTTP_RESPONSE then Line(StartRes)
          else Begin(StartReqOrRes))
    case UpdateType2 => (f.(typ := HTTP_REQUEST), Begin(StartReq(0)))
    case StoreMethod(m) => (f.(verb := m, typ := HTTP_REQUEST), Begin(ReqFirstSpaceBeforeUrl))
    case UpdateType1 => (f.(typ := HTTP_RESPONSE), Line(ResHttpMajor))
    case StoreMethod1(m) => (f.(verb := m), Begin(ReqFirstSpaceBeforeUrl))
    case IsEqualMethod => (f, if f.verb == HTTP_CONNECT then Url(SpanStartUrl) else Url(SpanStartUrl1))
    case _ => (f, Begin(Start)) // not an Invoke block
  }

  function LineInvoke(l: LineLabel, f: Fields): (Fields, Label) {
    match l
    case IsEqualMethod1 =>
      (f, if f.verb == HTTP_SOURCE then Line(ReqHttpMajor)
          else Fail(8, ExpectedSourceMethodForIceRequest))
    case StoreHttpMajor(m) => (f.(httpMajor := m), Line(ReqHttpDot))
    case StoreHttpMinor(m) => (f.(httpMinor := m), Line(ReqHttpEnd))
    case StoreHttpMajor1(m) => (f.(httpMajor := m), Line(ResHttpDot))
    case StoreHttpMinor1(m) => (f.(httpMinor := m), Line(ResHttpEnd))
    case UpdateStatusCode => (f.(statusCode := 0), Line(ResStatusCode))
    case MulAddStatusCode(d) => MulAddStatus(f, d)
    case _ => (f, Line(ReqHttpStart)) // not an Invoke block
  }

  /** llhttp__internal__c_mul_add_status_code: a 16-bit counter, at most 999. */
  function MulAddStatus(f: Fields, d: nat): (Fields, Label) {
    var overflow := Fail(13, ResponseOverflow);
    if f.statusCode > 0xffff / 10 then (f, overflow)
    else
      var g := f.(statusCode := f.statusCode * 10);
      if g.statusCode > 0xffff - d then (g, overflow)
      else
        var h := g.(statusCode := g.statusCode + d);
        (h, if h.statusCode > 999 then overflow else Line(ResStatusCode))
  }

  // ---------------------------------------------------------------- request target

  function UrlNode(l: UrlLabel): Node {
    match l
    case SpanStartUrl => SpanStart(UrlSpan, Url(UrlServer))
    case SpanStartUrl1 => SpanStart(UrlSpan, Url(UrlStart))
    case SpanEndUrlHttp09 => SpanEnd(UrlSpan, Url(UrlSkipToHttp09))
    case SpanEndUrlLfHttp09 => SpanEnd(UrlSpan, Url(UrlSkipLfToHttp09))
    case SpanEndUrlHttp => SpanEnd(UrlSpan, Url(UrlSkipToHttp))
    case UrlSkipLfToHttp09 => Match(11, false, Url(UpdateHttp09), Fail(7, ExpectedCrlf))
    case UpdateHttp09 => Invoke
    case _ => Peek
  }

  /** The three ways a request target ends. */
  function UrlTail(c: byte): Option<Label> {
    if c == LF then Some(Url(SpanEndUrlHttp09))
    else if c == CR then Some(Url(SpanEndUrlLfHttp09))
    else if c == SP then Some(Url(SpanEndUrlHttp))
    else None
  }

  function UrlDispatch(l: UrlLabel, c: byte): Edge {
    var bad := Fail(7, InvalidCharactersInUrl);
    match l
    case UrlStart =>
      if c == LF || c == CR || c == SP then Advance(bad)
      else if c == 0x2a || c == 0x2f then Stay(Url(SpanStartStubPath))
      else if IsAlpha(c) then Stay(Url(UrlSchema))
      else Stay(Fail(7, UnexpectedStartCharInUrl))
    case UrlSchema =>
      if c == LF || c == CR || c == SP then Advance(bad)
      else if c == 0x3a then Stay(Url(SpanEndStubSchema))
      else if IsAlpha(c) then Advance(Url(UrlSchema))
      else Stay(Fail(7, UnexpectedCharInUrlSchema))
    case SpanEndStubSchema => Advance(Url(UrlSchemaDelim))
    case UrlSchemaDelim =>
      if c == LF || c == CR || c == SP then Advance(bad)
      else if c == 0x2f then Advance(Url(UrlSchemaDelim1))
      else Stay(Fail(7, UnexpectedCharInUrlSchema))
    case UrlSchemaDelim1 =>
      if c == 0x2f then Advance(Url(UrlServer)) else Stay(Fail(7, UnexpectedCharInUrlSchema))
    case UrlServer =>
      if UrlTail(c).Some? then Stay(UrlTail(c).value)
      else if IsServerOctet(c) then Advance(Url(UrlServer))
      else if c == 0x2f then Stay(Url(SpanStartStubPath))
      else if c == 0x3f then Advance(Url(UrlQuery))
      else if c == 0x40 then Advance(Url(UrlServerWithAt))
      else Stay(Fail(7, UnexpectedCharInUrlServer))
    case UrlServerWithAt =>
      if UrlTail(c).Some? then Stay(UrlTail(c).value)
      else if IsServerOctet(c) then Advance(Url(UrlServer))
      else if c == 0x2f then Stay(Url(SpanStartStubPath))
      else if c == 0x3f then Advance(Url(UrlQuery))
      else if c == 0x40 then Advance(Fail(7, DoubleAtInUrl))
      else Stay(Fail(7, UnexpectedCharInUrlServer))
    case SpanStartStubPath => Advance(Url(UrlPath))
    case UrlPath =>
      if IsUrlOctet(c) && c != 0x23 && c != 0x3f then Advance(Url(UrlPath)) else Stay(Url(UrlQueryOrFragment))
    case UrlQueryOrFragment =>
      if UrlTail(c).Some? then Stay(UrlTail(c).value)
      else if c == 0x23 then Advance(Url(UrlFragment))
      else if c == 0x3f then Advance(Url(UrlQuery))
      else Stay(Fail(7, InvalidCharInUrlPath))
    case UrlQuery =>
      if UrlTail(c).Some? then Stay(UrlTail(c).value)
      else if c == 0x23 then Stay(Url(SpanEndStubQuery3))
      else if IsUrlOctet(c) then Advance(Url(UrlQuery))
      else Stay(Fail(7, InvalidCharInUrlQuery))
    case SpanEndStubQuery3 => Advance(Url(UrlFragment))
    case UrlFragment =>
      if UrlTail(c).Some? then Stay(UrlTail(c).value)
      else if IsUrlOctet(c) then Advance(Url(UrlFragment))
      else Stay(Fail(7, InvalidCharInUrlFragmentStart))
    case UrlSkipToHttp09 => Advance(Url(UpdateHttp09))
    case _ => Advance(Line(ReqHttpStart)) // UrlSkipToHttp
  }

  /** UpdateHttp09. */
  function UrlInvoke(f: Fields): (Fields, Label) {
    (f.(httpMajor := 0, httpMinor := 9), Field(HeaderFieldStart))
  }

  // ---------------------------------------------------------------- header fields and values

  function FieldNode(l: FieldLabel): Node {
    match l
    case SpanStartHeaderField => SpanStart(FieldSpan, Field(HeaderField))
    case HeaderField1 => Match(1, true, Field(HeaderField2), Field(ClearHeaderState)) // on
    case HeaderField3 => // ection
      Match(2, true, Field(StoreHeaderState(1)), Field(ClearHeaderState))
    case HeaderField4 => // ent-length
      Match(7, true,
            Field(StoreHeaderState(2)), Field(ClearHeaderState))
    case HeaderField5 => // roxy-connection
      Match(8, true,
            Field(StoreHeaderState(1)), Field(ClearHeaderState))
    case HeaderField6 => // ransfer-encoding
      Match(9, true,
            Field(StoreHeaderState(3)), Field(ClearHeaderState))
    case HeaderField7 => // pgrade
      Match(10, true, Field(StoreHeaderState(4)), Field(ClearHeaderState))
    case StoreHeaderState(_) => Invoke
    case ClearHeaderState => Invoke
    case _ => Peek
  }

  function ValueNode(l: ValueLabel): Node {
    match l
    case LoadHeaderState => Invoke
    case SpanStartHeaderValue => SpanStart(ValueSpan, Value(SpanEndHeaderValue))
    case SpanEndHeaderValue => SpanEnd(ValueSpan, Field(HeaderFieldStart))
    case SpanStartHeaderValue1 => SpanStart(ValueSpan, Value(LoadHeaderState1))
    case LoadHeaderState1 => Invoke
    case TestFlags2 => Invoke
    case MulAddContentLength1(_) => Invoke
    case SpanEndHeaderValue3 => SpanEnd(ValueSpan, Fail(11, ContentLengthOverflow))
    case OrFlags15 => Invoke
    case SpanEndHeaderValue4 => SpanEnd(ValueSpan, Fail(11, InvalidCharacterInContentLength))
    case HeaderValueTeChunked1 => // hunked
      Match(6, true, Value(UpdateHeaderState8), Value(UpdateHeaderState7))
    case UpdateHeaderState8 => Invoke
    case OrFlags16 => Invoke
    case UpdateHeaderState7 => Invoke
    case SpanEndHeaderValue1 => SpanEnd(ValueSpan, Value(HeaderValueAlmostDone))
    case LoadHeaderState2 => Invoke
    case _ => Peek
  }

  function ConnNode(l: ConnLabel): Node {
    match l
    case HeaderValueConnection1 => // lose
      Match(3, true, Conn(UpdateConnectionState(6)), Conn(HeaderValueConnectionToken))
    case HeaderValueConnection2 => // eep-alive
      Match(4, true,
            Conn(UpdateConnectionState(5)), Conn(HeaderValueConnectionToken))
    case HeaderValueConnection3 => // pgrade
      Match(5, true,
            Conn(UpdateConnectionState(7)), Conn(HeaderValueConnectionToken))
    case UpdateConnectionState(_) => Invoke
    case LoadHeaderState3 => Invoke
    case ClearConnectionState => Invoke
    case _ => Peek
  }

  function FieldDispatch(l: FieldLabel, c: byte): Edge {
    match l
    case HeaderFieldStart =>
      if c == LF then Stay(Field(HeadersAlmostDone))
      else if c == CR then Advance(Field(HeadersAlmostDone))
      else Stay(Field(SpanStartHeaderField))
    case HeaderField =>
      var d := c | 0x20;
      if d == 0x63 then Advance(Field(HeaderField1))
      else if d == 0x70 then Advance(Field(HeaderField5))
      else if d == 0x74 then Advance(Field(HeaderField6))
      else if d == 0x75 then Advance(Field(HeaderField7))
      else Stay(Field(ClearHeaderState))
    case HeaderField2 =>
      var d := c | 0x20;
      if d == 0x6e then Advance(Field(HeaderField3))
      else if d == 0x74 then Advance(Field(HeaderField4))
      else Stay(Field(ClearHeaderState))
    case HeaderFieldColon =>
      if c == SP then Advance(Field(HeaderFieldColon))
      else if c == 0x3a then EndAndAdvance(FieldSpan, Value(HeaderValueDiscardWs))
      else Stay(Field(ClearHeaderState))
    case HeaderFieldGeneral =>
      if IsFieldOctet(c) then Advance(Field(HeaderFieldGeneral)) else Stay(Field(HeaderFieldGeneralOtherwise))
    case HeaderFieldGeneralOtherwise =>
      if c == 0x3a then EndAndAdvance(FieldSpan, Value(HeaderValueDiscardWs))
      else Stay(Fail(10, InvalidHeaderToken))
    case _ => Advance(Msg(TestFlags)) // HeadersAlmostDone
  }

  function ValueDispatch(l: ValueLabel, c: byte): Edge {
    match l
    case HeaderValueDiscardWs =>
      if c == TAB || c == SP then Advance(Value(HeaderValueDiscardWs))
      else if c == LF then Advance(Value(HeaderValueDiscardLws))
      else if c == CR then Advance(Value(HeaderValueDiscardWsAlmostDone))
      else Stay(Value(SpanStartHeaderValue1))
    case HeaderValueDiscardWsAlmostDone => Advance(Value(HeaderValueDiscardLws))
    case HeaderValueDiscardLws =>
      if c == TAB || c == SP then Advance(Value(HeaderValueDiscardWs)) else Stay(Value(LoadHeaderState))
    case HeaderValueContentLength =>
      (match Decimal(c)
       case Some(d) => Advance(Value(MulAddContentLength1(d)))
       case None => Stay(Value(HeaderValueContentLengthWs)))
    case HeaderValueContentLengthWs =>
      if c == LF || c == CR then Stay(Value(OrFlags15))
      else if c == SP then Advance(Value(HeaderValueContentLengthWs))
      else Stay(Value(SpanEndHeaderValue4))
    case HeaderValueTeChunked =>
      var d := c | 0x20;
      if d == LF || d == CR || d == SP then Stay(Value(HeaderValueDiscardRws))
      else if d == 0x63 then Advance(Value(HeaderValueTeChunked1))
      else Stay(Value(UpdateHeaderState7))
    case HeaderValueDiscardRws =>
      if c == LF || c == CR then Stay(Value(HeaderValueOtherwise))
      else if c == SP then Advance(Value(HeaderValueDiscardRws))
      else Stay(Value(UpdateHeaderState7))
    case HeaderValue =>
      if IsValueOctet(c) then Advance(Value(HeaderValue)) else Stay(Value(HeaderValueOtherwise))
    case HeaderValueOtherwise =>
      if c == LF then Stay(Value(SpanEndHeaderValue1))
      else if c == CR then EndAndAdvance(ValueSpan, Value(HeaderValueAlmostDone))
      else Stay(Fail(10, InvalidHeaderValueChar))
    case HeaderValueAlmostDone =>
      if c == LF then Advance(Value(HeaderValueLws)) else Stay(Fail(3, MissingExpectedLfAfterHeaderValue))
    case HeaderValueLws =>
      if c == TAB || c == SP then Stay(Value(SpanStartHeaderValue1)) else Stay(Value(LoadHeaderState2))
    case _ => Stay(Value(HeaderValueLws)) // not a Peek block
  }

  function ConnDispatch(l: ConnLabel, c: byte): Edge {
    match l
    case HeaderValueConnection =>
      var d := c | 0x20;
      if d == TAB || d == SP then Advance(Conn(HeaderValueConnection))
      else if d == 0x63 then Advance(Conn(HeaderValueConnection1))
      else if d == 0x6b then Advance(Conn(HeaderValueConnection2))
      else if d == 0x75 then Advance(Conn(HeaderValueConnection3))
      else Stay(Conn(HeaderValueConnectionToken))
    case HeaderValueConnectionWs =>
      if c == LF || c == CR then Stay(Value(HeaderValueOtherwise))
      else if c == SP then Advance(Conn(HeaderValueConnectionWs))
      else if c == 0x2c then Advance(Conn(LoadHeaderState3))
      else Stay(Conn(ClearConnectionState))
    case HeaderValueConnectionToken =>
      if c == 0x2c then Advance(Conn(HeaderValueConnection))
      else if IsValueOctet(c) then Advance(Conn(HeaderValueConnectionToken))
      else Stay(Value(HeaderValueOtherwise))
    case _ => Stay(Conn(HeaderValueConnection)) // not a Peek block
  }

  /** The flag a finished Connection or Transfer-Encoding value sets, by header state. */
  function FlagOf(headerState: nat): Option<bv8> {
    if headerState == 5 then Some(F_CONNECTION_KEEP_ALIVE)
    else if headerState == 6 then Some(F_CONNECTION_CLOSE)
    else if headerState == 7 then Some(F_CONNECTION_UPGRADE)
    else if headerState == 8 then Some(F_CHUNKED)
    else None
  }

  /** The load_header_state switches: set the flag; the three Connection states also fall back to 1. */
  function SettleHeaderState(f: Fields): Fields {
    match FlagOf(f.headerState)
    case None => f
    case Some(bit) => f.(flags := f.flags | bit, headerState := if f.headerState == 8 then 8 else 1)
  }

  function FieldInvoke(l: FieldLabel, f: Fields): (Fields, Label) {
    match l
    case StoreHeaderState(n) => (f.(headerState := n), Field(HeaderFieldColon))
    case ClearHeaderState => (f.(headerState := 0), Field(HeaderFieldGeneral))
    case _ => (f, Field(HeaderFieldStart)) // not an Invoke block
  }

  function ValueInvoke(l: ValueLabel, f: Fields): (Fields, Label) {
    match l
    case LoadHeaderState => (SettleHeaderState(f), Value(SpanStartHeaderValue))
    case LoadHeaderState1 =>
      if f.headerState == 1 then (f, Conn(HeaderValueConnection))
      else if f.headerState == 2 then (f, Value(TestFlags2))
      else if f.headerState == 3 then (f, Value(HeaderValueTeChunked))
      else if f.headerState == 4 then (f, Value(OrFlags16))
      else (f, Value(HeaderValue))
    case TestFlags2 =>
      (f, if f.flags & F_CONTENT_LENGTH == F_CONTENT_LENGTH then Fail(4, DuplicateContentLength)
          else Value(HeaderValueContentLength))
    case MulAddContentLength1(d) =>
      MulAdd(f, 10, d, Value(HeaderValueContentLength), Value(SpanEndHeaderValue3))
    case OrFlags15 => (f.(flags := f.flags | F_CONTENT_LENGTH), Value(HeaderValueDiscardRws))
    case UpdateHeaderState8 => (f.(headerState := 8), Value(HeaderValueDiscardRws))
    case OrFlags16 => (f.(flags := f.flags | F_UPGRADE), Value(UpdateHeaderState7))
    case UpdateHeaderState7 => (f.(headerState := 0), Value(HeaderValue))
    case _ => (SettleHeaderState(f), Field(HeaderFieldStart)) // LoadHeaderState2
  }

  function ConnInvoke(l: ConnLabel, f: Fields): (Fields, Label) {
    match l
    case UpdateConnectionState(n) => (f.(headerState := n), Conn(HeaderValueConnectionWs))
    case LoadHeaderState3 => (SettleHeaderState(f), Conn(HeaderValueConnection))
    case ClearConnectionState => (f.(headerState := 0), Conn(HeaderValueConnectionToken))
    case _ => (f, Conn(HeaderValueConnection)) // not an Invoke block
  }

  /** llhttp__internal__c_mul_add_content_length and _1: append a digit to the 64-bit counter, watching both overflows. */
  function MulAdd(f: Fields, base: nat, d: nat, more: Label, overflow: Label): (Fields, Label)
    requires base > 0
  {
    if f.contentLength > UINT64_MAX / base then (f, overflow)
    else
      var g := f.(contentLength := f.contentLength * base);
      if g.contentLength > UINT64_MAX - d then (g, overflow)
      else (g.(contentLength := g.contentLength + d), more)
  }

  // ---------------------------------------------------------------- end of headers, bodies, end of message

  function MsgNode(l: MsgLabel): Node {
    match l
    case TestFlags => Invoke
    case OnHeadersComplete =>
      Callback(HeadersComplete, Msg(AfterHeadersComplete), PausedByOnHeadersComplete, 16, UserCallbackError)
    case OrFlags1 => Invoke
    case UpdateUpgrade => Invoke
    case AfterHeadersComplete => Invoke
    case OnMessageComplete =>
      Callback(MessageComplete, Msg(AfterMessageComplete), OnMessageCompletePause, 17,
               OnMessageCompleteCallbackError)
    case OnMessageComplete1 =>
      Callback(MessageComplete, Msg(Pause1), OnMessageCompletePause, 17, OnMessageCompleteCallbackError)
    case OnMessageComplete2 =>
      Callback(MessageComplete, Msg(IsEqualUpgrade), OnMessageCompletePause, 17,
               OnMessageCompleteCallbackError)
    case IsEqualUpgrade => Invoke
    case Pause1 => Pause(HPE_PAUSED_UPGRADE, PauseOnConnectUpgrade, Msg(AfterMessageComplete))
    case AfterMessageComplete => Invoke
  }

  function BodyNode(l: BodyLabel): Node {
    match l
    case UpdateContentLength => Invoke
    case MulAddContentLength(_) => Invoke
    case OnChunkHeader =>
      Callback(ChunkHeader, Body(IsEqualContentLength), OnChunkHeaderPause, 18, OnChunkHeaderCallbackError)
    case IsEqualContentLength => Invoke
    case SpanStartBody => SpanStart(BodySpan, Body(ConsumeContentLength))
    case ConsumeContentLength => Consume(Body(SpanEndBody))
    case SpanEndBody => SpanEnd(BodySpan, Body(ChunkDataAlmostDone))
    case OnChunkComplete =>
      Callback(ChunkComplete, Body(UpdateContentLength), OnChunkCompletePause, 19,
               OnChunkCompleteCallbackError)
    case OnChunkComplete1 =>
      Callback(ChunkComplete, Msg(OnMessageComplete2), OnChunkCompletePause, 19,
               OnChunkCompleteCallbackError)
    case SpanStartBody1 => SpanStart(BodySpan, Body(ConsumeContentLength1))
    case ConsumeContentLength1 => Consume(Body(SpanEndBody1))
    case SpanEndBody1 => SpanEnd(BodySpan, Msg(OnMessageComplete2))
    case SpanStartBody2 => SpanStart(BodySpan, Body(UpdateFinish1))
    case UpdateFinish1 => Invoke
    case _ => Peek
  }

  function BodyDispatch(l: BodyLabel, c: byte): Edge {
    match l
    case ChunkSize =>
      (match Hexadecimal(c)
       case Some(d) => Advance(Body(MulAddContentLength(d)))
       case None => Stay(Body(ChunkSizeOtherwise)))
    case ChunkSizeOtherwise =>
      if c == CR then Advance(Body(ChunkSizeAlmostDone))
      else if c == SP || c == 0x3b then Advance(Body(ChunkParameters))
      else Stay(Fail(12, InvalidCharacterInChunkSize))
    case ChunkParameters => if c == CR then Advance(Body(ChunkSizeAlmostDone)) else Advance(Body(ChunkParameters))
    case ChunkSizeAlmostDone => Advance(Body(OnChunkHeader))
    case ChunkDataAlmostDone => Advance(Body(ChunkDataAlmostDoneSkip))
    case ChunkDataAlmostDoneSkip => Advance(Body(OnChunkComplete))
    case _ => Advance(Body(Eof)) // Eof
  }

  /** llhttp__before_headers_complete. */
  function BeforeHeadersComplete(f: Fields): nat {
    if f.flags & F_UPGRADE != 0 && f.flags & F_CONNECTION_UPGRADE != 0 then
      (if f.typ == HTTP_REQUEST || f.statusCode == 101 then 1 else 0)
    else
      (if f.verb == HTTP_CONNECT then 1 else 0)
  }

  /** llhttp_message_needs_eof. */
  predicate MessageNeedsEof(f: Fields) {
    && f.typ != HTTP_REQUEST
    && !(f.statusCode / 100 == 1 || f.statusCode == 204 || f.statusCode == 304 || f.flags & F_SKIPBODY != 0)
    && f.flags & (F_CHUNKED | F_CONTENT_LENGTH) == 0
  }

  /** llhttp_should_keep_alive. */
  predicate ShouldKeepAlive(f: Fields) {
    && (if f.httpMajor > 0 && f.httpMinor > 0
        then f.flags & F_CONNECTION_CLOSE == 0
        else f.flags & F_CONNECTION_KEEP_ALIVE != 0)
    && !MessageNeedsEof(f)
  }

  /** llhttp__after_headers_complete with the switch on its answer. */
  function AfterHeaders(f: Fields): Label {
    var hasBody := f.flags & F_CHUNKED != 0 || f.contentLength > 0;
    if f.upgrade != 0 && (f.verb == HTTP_CONNECT || f.flags & F_SKIPBODY != 0 || !hasBody) then
      Msg(OnMessageComplete1)
    else if f.flags & F_SKIPBODY != 0 then Msg(OnMessageComplete)
    else if f.flags & F_CHUNKED != 0 then Body(UpdateContentLength)
    else if f.flags & F_CONTENT_LENGTH == 0 then
      if MessageNeedsEof(f) then Body(SpanStartBody2) else Msg(OnMessageComplete)
    else if f.contentLength == 0 then Msg(OnMessageComplete)
    else Body(SpanStartBody1)
  }

  function MsgInvoke(l: MsgLabel, f: Fields): (Fields, Label) {
    match l
    case TestFlags =>
      if f.flags & F_TRAILING == F_TRAILING then (f, Body(OnChunkComplete1))
      else if f.flags & (F_CONTENT_LENGTH | F_CHUNKED) == F_CONTENT_LENGTH | F_CHUNKED then
        (f, Fail(4, ContentLengthCannotBePresentWithChunkedEncoding))
      else (f.(upgrade := BeforeHeadersComplete(f)), Msg(OnHeadersComplete))
    case OrFlags1 => (f.(flags := f.flags | F_SKIPBODY), Msg(AfterHeadersComplete))
    case UpdateUpgrade => (f.(upgrade := 1), Msg(OrFlags1))
    case AfterHeadersComplete => (f, AfterHeaders(f))
    case IsEqualUpgrade => (f, if f.upgrade == 1 then Msg(Pause1) else Msg(AfterMessageComplete))
    case AfterMessageComplete => (f.(flags := 0, finish := 0), Begin(Start))
    case _ => (f, Msg(TestFlags)) // not an Invoke block
  }

  function BodyInvoke(l: BodyLabel, f: Fields): (Fields, Label) {
    match l
    case UpdateContentLength => (f.(contentLength := 0), Body(ChunkSize))
    case MulAddContentLength(d) => MulAdd(f, 16, d, Body(ChunkSize), Fail(12, ChunkSizeOverflow))
    case IsEqualContentLength =>
      if f.contentLength == 0 then (f.(flags := f.flags | F_TRAILING), Field(HeaderFieldStart))
      else (f, Body(SpanStartBody))
    case _ => (f.(finish := 1), Body(Eof)) // UpdateFinish1
  }

  // ---------------------------------------------------------------- the whole program

  function NodeOf(l: Label): Node {
    match l
    case Begin(x) => BeginNode(x)
    case Line(x) => LineNode(x)
    case Url(x) => UrlNode(x)
    case Field(x) => FieldNode(x)
    case Value(x) => ValueNode(x)
    case Conn(x) => ConnNode(x)
    case Msg(x) => MsgNode(x)
    case Body(x) => BodyNode(x)
    case Fail(code, reason) => Halt(code, reason)
  }

  /** Where octet `c` leads from a Peek block. */
  function Dispatch(l: Label, c: byte): Edge {
    match l
    case Begin(x) => BeginDispatch(x, c)
    case Line(x) => LineDispatch(x, c)
    case Url(x) => UrlDispatch(x, c)
    case Field(x) => FieldDispatch(x, c)
    case Value(x) => ValueDispatch(x, c)
    case Conn(x) => ConnDispatch(x, c)
    case Msg(_) => Stay(l) // no Peek block there
    case Body(x) => BodyDispatch(x, c)
    case Fail(_, _) => Stay(l)
  }

  /** What an Invoke block does. */
  function Invoked(l: Label, f: Fields): (Fields, Label) {
    match l
    case Begin(x) => BeginInvoke(x, f)
    case Line(x) => LineInvoke(x, f)
    case Url(_) => UrlInvoke(f)
    case Field(x) => FieldInvoke(x, f)
    case Value(x) => ValueInvoke(x, f)
    case Conn(x) => ConnInvoke(x, f)
    case Msg(x) => MsgInvoke(x, f)
    case Body(x) => BodyInvoke(x, f)
    case Fail(_, _) => (f, l)
  }

  /** Where a callback's answer leads when it neither pauses nor fails; on_headers_complete alone knows 1 and 2. */
  function Answered(l: Label, answer: int): Option<Label> {
    var n := NodeOf(l);
    if !n.Callback? then None
    else if answer == 0 then Some(n.next)
    else if n.mark == HeadersComplete && answer == 1 then Some(Msg(OrFlags1))
    else if n.mark == HeadersComplete && answer == 2 then Some(Msg(UpdateUpgrade))
    else None
  }
}
