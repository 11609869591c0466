/** The data of the incremental HTTP parser: its labels, its fields and the shape of its blocks. */
module LlhttpTypes {
  import opened Bytes

  /** The data callbacks, each reporting a run of input octets (a span), and NoSpan for none of them. */
  datatype SpanKind = NoSpan | UrlSpan | StatusSpan | FieldSpan | ValueSpan | BodySpan

  /** The callbacks that carry no octets. */
  datatype Mark =
    | MessageBegin
    | HeadersComplete
    | MessageComplete
    | ChunkHeader
    | ChunkComplete

  /** The fields of llhttp__internal_s that survive between blocks, apart from the position of the open span
      and the error triple. */
  datatype Fields = Fields(
    index: nat,
    contentLength: nat,
    typ: nat,
    verb: nat,
    httpMajor: nat,
    httpMinor: nat,
    headerState: nat,
    flags: bv8,
    upgrade: nat,
    statusCode: nat,
    finish: nat)

  /** What the caller's callback without octets answers, given the fields it can see. */
  type Reply = (Mark, Fields) -> int

  const UINT64_MAX: nat := 0xffff_ffff_ffff_ffff

  // Flag bits.
  const F_CONNECTION_KEEP_ALIVE: bv8 := 0x1
  const F_CONNECTION_CLOSE: bv8 := 0x2
  const F_CONNECTION_UPGRADE: bv8 := 0x4
  const F_CHUNKED: bv8 := 0x8
  const F_UPGRADE: bv8 := 0x10
  const F_CONTENT_LENGTH: bv8 := 0x20
  const F_SKIPBODY: bv8 := 0x40
  const F_TRAILING: bv8 := 0x80

  // Error codes the parser sets itself.
  const HPE_OK := 0
  const HPE_INVALID_EOF_STATE := 14
  const HPE_PAUSED := 20
  const HPE_PAUSED_UPGRADE := 21

  // Values of `type`, and the two methods the parser asks about.
  const HTTP_REQUEST := 1
  const HTTP_RESPONSE := 2
  const HTTP_GET := 1
  const HTTP_CONNECT := 5
  const HTTP_SOURCE := 33

  /** The texts `reason` can point to, one constructor for each. */
  datatype Reason =
    | NoReason
    | InvalidMethodEncountered
    | OnMessageBeginPause
    | OnMessageBeginCallbackError
    | InvalidWordEncountered
    | ExpectedHttp
    | ExpectedSpaceAfterMethod
    | InvalidMajorVersion
    | ExpectedDot
    | InvalidMinorVersion
    | ExpectedCrlfAfterVersion
    | ExpectedSpaceAfterVersion
    | InvalidResponseStatus
    | ExpectedSourceMethodForIceRequest
    | ResponseOverflow
    | ExpectedCrlf
    | InvalidCharactersInUrl
    | UnexpectedStartCharInUrl
    | UnexpectedCharInUrlSchema
    | UnexpectedCharInUrlServer
    | DoubleAtInUrl
    | InvalidCharInUrlPath
    | InvalidCharInUrlQuery
    | InvalidCharInUrlFragmentStart
    | ContentLengthOverflow
    | InvalidCharacterInContentLength
    | InvalidHeaderToken
    | InvalidHeaderValueChar
    | MissingExpectedLfAfterHeaderValue
    | DuplicateContentLength
    | PausedByOnHeadersComplete
    | UserCallbackError
    | OnMessageCompletePause
    | OnMessageCompleteCallbackError
    | PauseOnConnectUpgrade
    | OnChunkHeaderPause
    | OnChunkHeaderCallbackError
    | OnChunkCompletePause
    | OnChunkCompleteCallbackError
    | InvalidCharacterInChunkSize
    | ContentLengthCannotBePresentWithChunkedEncoding
    | ChunkSizeOverflow
    | Paused
    | InvalidEofState

  /** Message start and request method. */
  datatype BeginLabel =
    | Start
    | UpdateFinish
    | OnMessageBegin
    | LoadType
    | StartReqOrRes
    | UpdateType2
    | ReqOrResMethod
    | ReqOrResMethod1
    | ReqOrResMethod2
    | ReqOrResMethod3
    | StoreMethod(m: nat)
    | UpdateType1
    | StartReq(n: nat)
    | StoreMethod1(m: nat)
    | ReqFirstSpaceBeforeUrl
    | ReqSpacesBeforeUrl
    | IsEqualMethod

  /** HTTP version and status line. */
  datatype LineLabel =
    | ReqHttpStart
    | ReqHttpStart1
    | ReqHttpStart2
    | IsEqualMethod1
    | ReqHttpMajor
    | StoreHttpMajor(m: nat)
    | ReqHttpDot
    | ReqHttpMinor
    | StoreHttpMinor(m: nat)
    | ReqHttpEnd
    | ReqHttpEnd1
    | StartRes
    | ResHttpMajor
    | StoreHttpMajor1(m: nat)
    | ResHttpDot
    | ResHttpMinor
    | StoreHttpMinor1(m: nat)
    | ResHttpEnd
    | UpdateStatusCode
    | ResStatusCode
    | MulAddStatusCode(d: nat)
    | ResStatusCodeOtherwise
    | ResStatusStart
    | SpanStartStatus
    | ResStatus
    | ResLineAlmostDone

  /** The request target. */
  datatype UrlLabel =
    | SpanStartUrl
    | SpanStartUrl1
    | UrlStart
    | UrlSchema
    | SpanEndStubSchema
    | UrlSchemaDelim
    | UrlSchemaDelim1
    | UrlServer
    | UrlServerWithAt
    | SpanStartStubPath
    | UrlPath
    | UrlQueryOrFragment
    | UrlQuery
    | SpanEndStubQuery3
    | UrlFragment
    | SpanEndUrlHttp09
    | SpanEndUrlLfHttp09
    | SpanEndUrlHttp
    | UrlSkipToHttp09
    | UrlSkipLfToHttp09
    | UrlSkipToHttp
    | UpdateHttp09

  /** Header names. */
  datatype FieldLabel =
    | HeaderFieldStart
    | SpanStartHeaderField
    | HeaderField
    | HeaderField1
    | HeaderField2
    | HeaderField3
    | HeaderField4
    | HeaderField5
    | HeaderField6
    | HeaderField7
    | StoreHeaderState(n: nat)
    | HeaderFieldColon
    | ClearHeaderState
    | HeaderFieldGeneral
    | HeaderFieldGeneralOtherwise
    | HeadersAlmostDone

  /** Header values. */
  datatype ValueLabel =
    | HeaderValueDiscardWs
    | HeaderValueDiscardWsAlmostDone
    | HeaderValueDiscardLws
    | LoadHeaderState
    | SpanStartHeaderValue
    | SpanEndHeaderValue
    | SpanStartHeaderValue1
    | LoadHeaderState1
    | TestFlags2
    | HeaderValueContentLength
    | MulAddContentLength1(d: nat)
    | SpanEndHeaderValue3
    | HeaderValueContentLengthWs
    | OrFlags15
    | SpanEndHeaderValue4
    | HeaderValueTeChunked
    | HeaderValueTeChunked1
    | UpdateHeaderState8
    | OrFlags16
    | UpdateHeaderState7
    | HeaderValueDiscardRws
    | HeaderValue
    | HeaderValueOtherwise
    | SpanEndHeaderValue1
    | HeaderValueAlmostDone
    | HeaderValueLws
    | LoadHeaderState2

  /** The value of a Connection header. */
  datatype ConnLabel =
    | HeaderValueConnection
    | HeaderValueConnection1
    | HeaderValueConnection2
    | HeaderValueConnection3
    | UpdateConnectionState(n: nat)
    | HeaderValueConnectionWs
    | LoadHeaderState3
    | ClearConnectionState
    | HeaderValueConnectionToken

  /** End of headers and end of message. */
  datatype MsgLabel =
    | TestFlags
    | OnHeadersComplete
    | OrFlags1
    | UpdateUpgrade
    | AfterHeadersComplete
    | OnMessageComplete
    | OnMessageComplete1
    | OnMessageComplete2
    | IsEqualUpgrade
    | Pause1
    | AfterMessageComplete

  /** Chunks and bodies. */
  datatype BodyLabel =
    | UpdateContentLength
    | ChunkSize
    | MulAddContentLength(d: nat)
    | ChunkSizeOtherwise
    | ChunkParameters
    | ChunkSizeAlmostDone
    | OnChunkHeader
    | IsEqualContentLength
    | SpanStartBody
    | ConsumeContentLength
    | SpanEndBody
    | ChunkDataAlmostDone
    | ChunkDataAlmostDoneSkip
    | OnChunkComplete
    | OnChunkComplete1
    | SpanStartBody1
    | ConsumeContentLength1
    | SpanEndBody1
    | SpanStartBody2
    | UpdateFinish1
    | Eof

  /** A place in the goto program: s_n_llhttp__internal__n_... in the source. A value the source passes through its
      local variable `match` is an argument of the label it is passed to. */
  datatype Label =
    | Begin(begin: BeginLabel)
    | Line(line: LineLabel)
    | Url(url: UrlLabel)
    | Field(field: FieldLabel)
    | Value(value: ValueLabel)
    | Conn(conn: ConnLabel)
    | Msg(msg: MsgLabel)
    | Body(body: BodyLabel)
    | Fail(code: nat, reason: Reason)

  /** The shape of one block of the goto program. */
  datatype Node =
    /** Return if no octet is left, else go where Dispatch says. */
    | Peek
    /** Match the rest of Blob(blob) (llparse__match_sequence_id, or _to_lower_unsafe when `lower`). */
    | Match(blob: nat, lower: bool, hit: Label, miss: Label)
    /** Take contentLength octets, then go to `done`. */
    | Consume(done: Label)
    /** Return if no octet is left, else open a span at it. */
    | SpanStart(kind: SpanKind, next: Label)
    /** Report the open span up to here. */
    | SpanEnd(kind: SpanKind, next: Label)
    /** Update fields and branch on them, looking at no octet. */
    | Invoke
    /** Ask the caller: 0 goes to `next`, HPE_PAUSED stops ready to go on at `next`, other answers are errors. */
    | Callback(mark: Mark, next: Label, pauseReason: Reason, failCode: nat, failReason: Reason)
    /** Stop, ready to go on at `next`. */
    | Pause(code: nat, reason: Reason, next: Label)
    /** Stop for good. */
    | Halt(code: nat, reason: Reason)

  /** Where a peeked octet leads: past it, or to a block that looks at it again, or past it with the open span
      reported just before. */
  datatype Edge =
    | Advance(next: Label)
    | Stay(next: Label)
    | EndAndAdvance(kind: SpanKind, next: Label)
}
