# V8 JSI adapter: a verified model of its self-contained logic

This Dafny project models the parts of the V8 adapter for JSI that do not call into V8: the inspector's network stack,
the platform's task runner, the ownership of JS handles, the conversions between dynamic and JS values, and the cache
that decides which trace events are written. Each module names the code it stands for; `dafny verify dfyconfig.toml`
checks all of it.

**The HTTP parser.** `LlhttpTables` writes the goto program of llhttp as tables: the shape of each of its blocks,
where every octet leads from it, and what blocks without input do to the fields. `Llparse` says what such a program
does to one octet at a time, with whole spans and no buffer offsets, and `LlparseBulk` to many; `LlparseParser` is the
parser itself, a class that works in place on one buffer after the other with a saved match index and the start of an
open span, and every `Execute` is proved to be a run of the specification. From there on all results are about runs:
splitting the input changes neither fields, events, error nor its position, pauses are transparent, every run ends.
What splitting does change, the part of an open span that has been handed over when an error comes, is in
`LlparseSpans`. `LlhttpProgram` shows that the HTTP tables are such a program: a span is open exactly where it should
be, and no edge loops without taking an octet. `LlhttpNumbers` (counters), `LlhttpMethods` (the method trie),
`LlhttpNames` (header names), `LlhttpValues` and `LlhttpConnection` (header values), `LlhttpHeaders` (header
sections), `LlhttpChunks` and `LlhttpTrailers` (bodies), `LlhttpTargets` (what a request asks for), `LlhttpRequest`
(heads of requests) and `LlhttpMessage` (requests with their bodies, one behind the other) say what the program makes
of HTTP text, in terms of the text and not of the tables; of names, values, headers and targets they say exactly which
octets are accepted.

**The connection.** `HttpText` compares names and cuts hosts, `HttpHandler` gathers requests from the parser's
callbacks and decides what its delegate is told, and `HttpRequests` puts all of this together: however a client's
octets are cut into reads, its requests arrive in order, with or without bodies, and an opening handshake becomes a
socket upgrade with the target, host and key the client sent, if and only if the host is one that is allowed.
`HttpSamples` follows requests from their octets to the delegate, and `HttpCases` holds inputs on which something
unexpected happens. `Sha1Spec`, `Sha1`, `Base64`, `BigEndian`, `WebSocketFrame` and `WebSocket` cover the digest, the
accept string and the frames; `AcceptSample` works the sample handshake of RFC 6455 through by value; `Utf` covers the
conversion of messages.

**Concurrent protocols.** `TcpPump` (queued writes on a socket), `Dispatcher` (messages from the front end to a
dispatcher that can be re-entered) and `TaskRunner` (worker and timer threads) are state machines over the steps of
all threads, with results for every interleaving; beside each stands a class whose methods are the locked sections,
each proved to be the step, or the run of steps, that it stands for.

**Values.** `Handles` (linear ownership of PointerValues), `Dynamic` (conversions) and `EtwCache` (enable bits).

In some places the code does something that a reader of its documentation would not expect. Each is stated exactly,
with an input on which it happens:

- Splitting the input does show when the parser stops in the middle of a span. If an earlier buffer ended inside the
  span, the caller has been handed the span up to there; otherwise nothing of it (`LlparseSpans.OpenIff`; for request
  targets `HttpCases.CutTarget` and `HttpCases.HearTarget`).
- A counter that is not zero hides an opening handshake, and a Content-Length in a trailer or of a CONNECT leaves one
  behind (`LlhttpRequest.ConnectRequest`, `HttpCases.ConnectHides`, `HttpCases.TunnelLeaves`). The parser then goes on
  behind the handshake, the handler still reports it as an upgrade, and the first frame is taken for a request
  (`HttpCases.OpeningIff`, `HttpCases.MissUpgrade`, `HttpCases.MissBehindTrailer`).
- The matcher sets one bit before it compares, which makes a hyphen of a CR. So "Content<CR>Length" is a
  Content-Length, likewise for Transfer-Encoding and Proxy-Connection (`LlhttpNames.NameRead`,
  `LlhttpNames.CrIsHyphen`, `HttpCases.CrTaken`); "keep<CR>alive" is keep-alive (`HttpCases.CrKeepsAlive`); and when
  the last element of a Connection header is exactly "keep", the CR that ends the line becomes part of the value
  (`LlhttpConnection.KeepLine`).
- In front of an element of a Connection header a NUL is skipped like a blank, though it is an error in every other
  value: "close,<NUL>upgrade" is an upgrade (`LlhttpConnection.Listed`, `HttpCases.NulSkipped`).
- Of a header that goes on in the next line only the first line counts: "Transfer-Encoding: chunked" stays chunked
  whatever follows, and "chunked" in the second line does nothing. Connection headers are the exception, and a
  Content-Length may not go on at all (`LlhttpHeaders.FirstLineDecides`, `HttpCases.SecondLineIgnored`).
- A CR takes whatever octet follows it for a LF: behind a colon, and at the end of a header section, of a chunk size and
  of a chunk's data (`LlhttpChunks.AnyOctet`, `LlhttpHeaders.ValueRead`, `HttpCases.LooseServed`).
- An authority may hold any number of at signs, as long as no two stand side by side (`LlhttpTargets.TargetRead`).
- A refused request drops what came in the same read behind it, and nothing else: what is delivered depends on where
  the reads were cut (`HttpHandler.DeliverSplit`, `HttpCases.CutDecides`).
- The completeness test of the frame decoder leaves the header out of account. For some unfinished frames it goes on
  behind the end of the buffer (`WebSocket.DecodeEarly`, `WebSocket.ReadEarly`, `WebSocket.EarlyExample`).
- The checks in the dispatcher fail, even on well-bracketed sessions, if and only if a session is opened behind the
  one that a shutdown waits for (`Dispatcher.ChecksHold`, `Dispatcher.CheckFails`).
- The handler of a completed send does not look at how much was sent: the rest of a message that was sent in part is
  lost (`TcpPump.Arrives`, `TcpPump.ShortSend`).

## Model

| member | source | states |
|---|---|---|
| Llparse.Program.StepReady | v8jsi/inspector/llhttp.c:821-6016 | every step keeps the machine's invariant (index in range, 64-bit counter, a span open exactly where the program says) and each step without input goes down in rank |
| Llparse.Program.Run | v8jsi/inspector/llhttp.c:821-6016 | a run ends on every input from every state that satisfies the invariant, and ends in such a state |
| Llparse.Program.RunStops | v8jsi/inspector/llhttp.c:821-6016 | a run that stops has taken a prefix of its input, and stops with an error of its own or with a pause outside any span |
| Llparse.Program.RunSplit | v8jsi/inspector/llhttp.c:821-6050 | for all states and all octets a and b, running over a and then b gives the same fields, events, result and offset of an error as running over both at once |
| Llparse.Program.RunPiecesIsRun | v8jsi/inspector/llhttp.c:821-6050 | the same for any way of cutting the input into pieces |
| Llparse.Program.RunFirst | v8jsi/inspector/llhttp.c:6018-6050 | the run over pieces that only the last can stop, one piece on |
| Llparse.Program.PauseTransparent | v8jsi/inspector/llhttp_api.c:64-80 | a callback that pauses where another would go on changes nothing: resuming on the octets left gives the run without the pause |
| LlparseBulk.MatchRun | v8jsi/inspector/llhttp.c:175-238 | matching a stretch of a word in bulk is matching it octet by octet |
| LlparseBulk.MatchHit | v8jsi/inspector/llhttp.c:175-238 | octets that spell a word lead a matching block to its target, whatever follows |
| LlparseBulk.MatchMiss | v8jsi/inspector/llhttp.c:175-238 | octets that agree with a word up to one that does not lead to the other target, with that octet not taken and the index back at zero |
| LlparseBulk.MatchWaits | v8jsi/inspector/llhttp.c:175-238 | input that ends inside a word leaves the block waiting, with the index saved |
| LlparseBulk.ConsumeRun | v8jsi/inspector/llhttp.c:1104-1132 | taking body octets in bulk is taking them one by one |
| LlhttpProgram.LlhttpWellFormed | v8jsi/inspector/llhttp.c:821-6016 | in the whole program spans begin and end where they should, edges without input lower a rank, and the counter stays a 64-bit number: the general results apply to it |
| LlparseParser.Parser.constructor | v8jsi/inspector/llhttp_api.c:20-26 | a new parser satisfies the invariant and stands at the start of a message |
| LlparseParser.Parser.MatchSequence | v8jsi/inspector/llhttp.c:175-238 | the matching loop reports completion, a pause or a mismatch exactly as the octets demand, and saves or resets the index |
| LlparseParser.Parser.ConsumeBlock | v8jsi/inspector/llhttp.c:1104-1132 | takes as much of the body as the buffer has and the counter allows |
| LlparseParser.Parser.EndSpan | v8jsi/inspector/llhttp.c:5685-5710 | what the caller has heard of a span is all its octets, whatever buffers they came in |
| LlparseParser.Parser.Block | v8jsi/inspector/llhttp.c:821-6016 | each block of the in-place loop is a stretch of the specification's run, and makes progress |
| LlparseParser.Parser.RunBlocks | v8jsi/inspector/llhttp.c:820-6016 | block after block, the loop goes where the specification's run goes, and ends |
| LlparseParser.Parser.Execute | v8jsi/inspector/llhttp.c:6018-6050 | one call runs over its buffer exactly as the specification does, with the same fields, events, error and error position; after an error in a span it has handed over none of the span's octets in this buffer; after an error it does nothing |
| LlparseParser.Parser.Finish | v8jsi/inspector/llhttp_api.c:39-61 | the end of input completes a body that runs to the end, is an error inside a message, and otherwise nothing |
| LlparseParser.Parser.PauseNow | v8jsi/inspector/llhttp_api.c:64-71 | sets the paused error unless there is one already |
| LlparseParser.Parser.Resume | v8jsi/inspector/llhttp_api.c:74-80 | clears only the paused error |
| LlparseParser.Parser.ResumeAfterUpgrade | v8jsi/inspector/llhttp_api.c:83-89 | clears only the upgrade pause |
| LlparseParser.ExecuteAll | v8jsi/inspector/llhttp.c:6018-6050 | a new parser fed any number of buffers ends with the fields, the callbacks (spans put together), the error and the number of octets taken of one run over all the octets; of a span open at an error it has told what OpenOver says |
| LlparseSpans.RunSpan | v8jsi/inspector/llhttp.c:821-6016 | along a run a span that stays open takes every octet, and one opened since holds the last of them |
| LlparseSpans.LastBufferStops | v8jsi/inspector/llhttp.c:6018-6050 | the last buffer a run gets to is the one in which it stops |
| LlparseSpans.OpenIs | v8jsi/inspector/llhttp.c:6029-6047 | after an error the caller has heard of the open span exactly the octets before the buffer with the error |
| LlparseSpans.OpenIff | v8jsi/inspector/llhttp.c:6029-6047 | that is nothing, as with one buffer, if and only if no earlier buffer ended inside the span; otherwise it is the span up to the end of the last that did |
| LlhttpNumbers.DigitIs | v8jsi/inspector/llhttp.c:983-1100 | the digit tables of the parser are those of arithmetic: 0 to 9, and for chunk sizes a to f in both cases, each with its value, and no other octet |
| LlhttpNumbers.CountedIsNumber | v8jsi/inspector/llhttp.c:521-545 | taking digits in from the left, as the parser's tables read them, gives the number by place value, stated by arithmetic on the octets |
| LlhttpNumbers.CountedOnTop | v8jsi/inspector/llhttp.c:521-545 | digits taken in behind what the counter holds go behind it: the old value times the power of the base, and the number |
| LlhttpNumbers.LlhttpCounts | v8jsi/inspector/llhttp.c:685-709 | at all three counters a digit is taken in exactly when the number still fits |
| LlhttpNumbers.DigitsFit | v8jsi/inspector/llhttp.c:521-545 | from any counter a numeral that fits is taken in whole |
| LlhttpNumbers.DigitsPass | v8jsi/inspector/llhttp.c:521-545 | from any counter one that does not fit is an error right behind the digit that makes it too large |
| LlhttpNumbers.NumberAccepted | v8jsi/inspector/llhttp.c:768-797 | from zero a Content-Length or chunk size is accepted if and only if its place value is below 2^64, a status code if and only if it is at most 999, and the counter is then that value |
| LlhttpMethods.NameHeard | v8jsi/inspector/llhttp.c:2814-4053 | each name of the method table is read as its method, whatever follows |
| LlhttpMethods.OnlyNames | v8jsi/inspector/llhttp.c:2814-4053 | what the trie accepts is a name of the table; anything else is an error or the beginning of one |
| LlhttpMethods.MethodRead | v8jsi/inspector/llhttp.h:170-204 | the trie reads exactly the names of HTTP_METHOD_MAP, each as its number |
| LlhttpNames.FieldOctets | v8jsi/inspector/llhttp.c:1730-1762 | a name holds the octets of a token of section 3.2.6 of RFC 7230, and spaces |
| LlhttpNames.StateByOctetIs | v8jsi/inspector/llhttp.c:1785-1994 | deciding octet by octet is deciding by the whole name |
| LlhttpNames.NameRead | v8jsi/inspector/llhttp.c:1730-2030 | for any octets before a colon that begin with neither CR nor LF: exactly the names are accepted (octets of a name, and a CR for the hyphen of one of three words), a name is reported whole, and its state is that of the two Connection headers, Content-Length, Transfer-Encoding or Upgrade exactly if it is that word in any case, with hyphens or CRs, perhaps with spaces behind it |
| LlhttpNames.CrIsHyphen | v8jsi/inspector/llhttp.c:207-238 | a name with CRs means what it means with hyphens in their place |
| LlhttpValues.ValueOctets | v8jsi/inspector/llhttp.c:1470-1500 | a value holds the octets that section 3.2 of RFC 7230 has there, but for 0xff |
| LlhttpValues.Plain | v8jsi/inspector/llhttp.c:1470-1500 | for any octets of a line: exactly those that are all value octets are accepted; the value is reported whole and changes nothing |
| LlhttpValues.LengthIs | v8jsi/inspector/llhttp.c:1561-1620 | the length of a value is the place value of the digits 0 to 9 it begins with, behind what the counter held |
| LlhttpValues.Sized | v8jsi/inspector/llhttp.c:1561-1620 | for any octets of a line: exactly a first Content-Length is accepted, digits and trailing spaces, that on top of the counter fits 64 bits; the counter is then what LengthIs says, and its flag is set |
| LlhttpValues.Coded | v8jsi/inspector/llhttp.c:1505-1680 | for any octets of a line: exactly those that are all value octets are accepted, and the message is to be chunked exactly if they are the one word, in any case, perhaps with spaces behind it |
| LlhttpConnection.CommaTail | v8jsi/inspector/llhttp.c:1289-1325 | where the first element of a list ends, and what follows it, do not depend on how much of it has been read |
| LlhttpConnection.Listed | v8jsi/inspector/llhttp.c:1289-1468 | for any octets of a line: exactly the Connection lists are accepted (value octets, a CR for the hyphen of keep-alive, and NULs in front of an element), and reported as they are but for an unfinished keep at the end |
| LlhttpConnection.ListSays | v8jsi/inspector/llhttp.c:1289-1468 | a list sets the flags of its elements that are close, keep-alive or upgrade, in any case, between spaces and behind NULs, and no others |
| LlhttpConnection.KeepLine | v8jsi/inspector/llhttp.c:207-238 | the word keep at the end of the line takes the CR into the value |
| LlhttpHeaders.LinesRead | v8jsi/inspector/llhttp.c:1235-1270 | any number of lines that begin with a blank continue a value: exactly those are accepted that fit what the lines before them have made of the header, each is reported, and no line continues a length |
| LlhttpHeaders.ValueRead | v8jsi/inspector/llhttp.c:1203-1728 | behind the colon, for any octets of the lines: blanks and line ends among them are skipped, exactly the values that fit the name are accepted, on one line or several, reported line by line, and have the effect of their header; an empty value has none |
| LlhttpHeaders.ValueRefused | v8jsi/inspector/llhttp.c:5164-5232 | a second Content-Length, one that does not fit 64 bits, one with anything but digits and trailing spaces and one with a second line stop the parser with an error that says so |
| LlhttpHeaders.HeaderRead | v8jsi/inspector/llhttp.c:1203-2030 | a header of any octets, on one line or several: exactly those with a name and a value that fits it are reported and have their effect, all others are errors |
| LlhttpHeaders.HeaderRefused | v8jsi/inspector/llhttp.c:5164-5232 | for a Content-Length that is refused the error says so |
| LlhttpHeaders.SectionRead | v8jsi/inspector/llhttp.c:1183-2030 | a section of any number of such headers: exactly those are accepted whose headers all are, each behind those before it, and they are reported in order with all their effects; all others are errors |
| LlhttpHeaders.SectionRefused | v8jsi/inspector/llhttp.c:5164-5232 | if the first header that is refused is a Content-Length, the error says so |
| LlhttpHeaders.SimpleFlags | v8jsi/inspector/llhttp.c:5099-5260 | which flags a header of one line sets, by its name and value |
| LlhttpHeaders.FirstLineDecides | v8jsi/inspector/llhttp.c:4990-5098 | of a header other than Connection the first line alone decides what it does, whatever lines continue it |
| LlhttpHeaders.SectionFlags | v8jsi/inspector/llhttp.c:5099-5260 | a flag is set behind a section exactly if it was set before or some header sets it |
| LlhttpHeaders.SectionLeaves | v8jsi/inspector/llhttp.c:5099-5260 | headers change nothing but flags, header state and the counter, and the counter only by a Content-Length |
| LlhttpHeaders.SectionBits | v8jsi/inspector/llhttp.c:5099-5260 | no header marks a message as trailing or skips its body |
| LlhttpChunks.AnyOctet | v8jsi/inspector/llhttp.c:881-938 | where a CR has been taken at the end of a header section, of an empty value, of a chunk size or of a chunk's data, the octet behind it can be any: the run goes on as it would behind a LF |
| LlhttpChunks.HeadersEnd | v8jsi/inspector/llhttp.c:1183-1191 | a header section ends with a LF, or with a CR and any octet |
| LlhttpChunks.ChunksTaken | v8jsi/inspector/llhttp.c:870-1132 | any number of chunks, from the start of a chunk to the start of the next |
| LlhttpChunks.SizedBody | v8jsi/inspector/llhttp_http.c:38-71 | a body of length N > 0 is the next N octets, no more and no less; behind it the parser stops for an upgrade or is ready for the next message |
| LlhttpTrailers.ChunkedBody | v8jsi/inspector/llhttp.c:870-1132 | decoding inverts the chunked encoding of section 4.1 of RFC 7230: the body is heard as it is, whatever the counter and the trailer, the chunk callbacks once for each chunk and the last, completion once; what the trailer puts into the counter stays there |
| LlhttpTrailers.TrailerRead | v8jsi/inspector/llhttp.c:4857-4877 | a trailer of any length is reported header by header and ends the message |
| LlhttpTrailers.LeftBehind | v8jsi/inspector/llhttp_http.c:74-84 | the trailer "Content-Length: 1" leaves a one in the counter |
| LlhttpTargets.PathOctets | v8jsi/inspector/llhttp.c:2313-2475 | the octets that a path, query or fragment refuses: control octets but for tab and form feed, the space, the vertical bar and DEL |
| LlhttpTargets.PathTakes | v8jsi/inspector/llhttp.c:2313-2475 | so it takes every octet that section 3.3 of RFC 3986 has there |
| LlhttpTargets.ServerOctets | v8jsi/inspector/llhttp.c:2509-2618 | the octets of an authority, by class and by name |
| LlhttpTargets.TargetRead | v8jsi/inspector/llhttp.c:2303-2778 | a target of any octets up to a space: exactly those are accepted and reported whole that fit the method (an authority, perhaps with what follows one, for CONNECT; else a path, the asterisk, or a scheme with an authority), all others are errors |
| LlhttpTargets.TargetNoEnd | v8jsi/inspector/llhttp.c:2303-2778 | no accepted target holds a space or a line break, so where it ends is never in doubt |
| LlhttpTargets.TargetRefused | v8jsi/inspector/llhttp.c:2303-2778 | an octet that is none of a target's stops the parser with the target still open |
| LlhttpRequest.UpgradeMissed | v8jsi/inspector/llhttp_http.c:38-71 | with the counter above zero an upgrade request that announces no body and is no CONNECT does not stop the parser |
| LlhttpRequest.UpgradeIff | v8jsi/inspector/llhttp_http.c:74-84 | the parser stops behind such a request if and only if the counter was zero before it or the method is CONNECT |
| LlhttpRequest.ConnectRequest | v8jsi/inspector/llhttp_http.c:38-50 | a CONNECT stops the parser right behind its headers whatever body they announce, and a Content-Length among them is in the counter when the caller goes on |
| LlhttpRequest.Resumed | v8jsi/inspector/llhttp_api.c:83-89 | a caller that resumes behind an upgrade is between two messages, with the counter as it was |
| LlhttpRequest.EmptyLines | v8jsi/inspector/llhttp.c:4503-4515 | any line breaks in front of a request are skipped |
| LlhttpRequest.VerbRead | v8jsi/inspector/llhttp.c:4473-4515 | from between two messages, the method of a request is stored and a message begins |
| LlhttpRequest.VersionRead | v8jsi/inspector/llhttp.c:2045-2302 | the two digits of the version are stored and the line ends, with or without a CR |
| LlhttpRequest.HeadRead | v8jsi/inspector/llhttp.c:1183-4515 | a request line and any headers: exactly the heads whose headers are accepted are reported, in order and whole, and all others are errors |
| LlhttpRequest.HeadSays | v8jsi/inspector/llhttp_http.c:14-29 | behind the headers the request is an upgrade exactly if it is a CONNECT, or some header is Upgrade and some Connection header lists it |
| LlhttpRequest.KeepAliveSays | v8jsi/inspector/llhttp_http.c:106-121 | a connection is kept unless a header says close; below HTTP/1.1 only if one says keep-alive |
| LlhttpRequest.PlainRequest | v8jsi/inspector/llhttp_http.c:38-84 | a request that announces no body and is no upgrade is complete with its headers, and the parser is ready for the next one |
| LlhttpRequest.UpgradeRequest | v8jsi/inspector/llhttp.c:847-857 | an upgrade request stops the parser right behind its headers: no octet behind it is taken |
| LlhttpRequest.SizedRequest | v8jsi/inspector/llhttp_http.c:38-71 | a request with a Content-Length of N > 0, with its body of N octets; an upgrade stops the parser behind the body |
| LlhttpRequest.ChunkedRequest | v8jsi/inspector/llhttp.c:870-1132 | a chunked request, with the octets of its chunks as its body; an upgrade stops the parser behind the trailer |
| LlhttpRequest.BothFramings | v8jsi/inspector/llhttp.c:4857-4866 | a request with a length and chunks is refused, whatever else it holds |
| LlhttpMessage.MessageRead | v8jsi/inspector/llhttp_http.c:14-84 | every message that is accepted, with any method, with no body, a sized or a chunked one, from wherever the counter stands: it is told as it is, its body octet for octet, and the parser stops behind it exactly for an upgrade that is not hidden by the counter, or is ready for the next message with the counter it leaves |
| HttpText.SameLetter | v8jsi/inspector/inspector_utils.cpp:151-153 | octets are alike without case exactly if they are the same, or one letter in both cases |
| HttpText.StringEqualNoCaseN | v8jsi/inspector/inspector_utils.cpp:172-180 | compares up to so many octets, or up to a NUL both strings have, without case |
| HttpText.StringEqualNoCase | v8jsi/inspector/inspector_utils.cpp:162-170 | true exactly if the two C strings agree without case |
| HttpText.BeginsIsEqualN | v8jsi/inspector/inspector_socket.cpp:584-597 | as it is called, the comparison finds the headers whose names begin with the one wanted |
| HttpText.TrimPort | v8jsi/inspector/inspector_socket.cpp:174-182 | cuts from the last colon on unless a bracket closes behind it |
| HttpText.IsIPAddress | v8jsi/inspector/inspector_socket.cpp:184-195 | true exactly for text in brackets and for digits with three dots |
| HttpText.IsAllowedHost | v8jsi/inspector/inspector_socket.cpp:599-604 | no host, an address, or one of the two names of this machine, in any case |
| HttpHandler.GatheredWhole | v8jsi/inspector/inspector_socket.cpp:543-564 | names, values and paths gathered from pieces of spans are those of the whole spans, wherever they were cut |
| HttpHandler.DeliverAnswers | v8jsi/inspector/inspector_socket.cpp:510-524 | what is delivered of a read, request by request: the requests before the first that has a host not allowed, is no GET, or is an upgrade without a key are each delivered as what they are, and that one cancels the handshake, with nothing behind it |
| HttpHandler.AnswersOnce | v8jsi/inspector/inspector_socket.cpp:510-524 | there is one place where that can be, and one list of deliveries |
| HttpHandler.DeliverHonest | v8jsi/inspector/inspector_socket.cpp:510-524 | whatever is delivered as a GET or a socket upgrade has an allowed host and comes from a GET in the read with that target, host and key |
| HttpHandler.DeliverSplit | v8jsi/inspector/inspector_socket.cpp:510-524 | two reads deliver what one read of the same requests delivers if and only if the first holds no refused request or the second holds none |
| HttpHandler.HttpHandler.HeaderValue | v8jsi/inspector/inspector_socket.cpp:584-597 | the value of the only header whose name begins with the one wanted, in whatever order the headers are visited; nothing if there are none or several |
| HttpHandler.HttpHandler.OnHeaderField | v8jsi/inspector/inspector_socket.cpp:550-558 | adds to a name, or begins one behind a value |
| HttpHandler.HttpHandler.OnHeaderValue | v8jsi/inspector/inspector_socket.cpp:543-548 | adds to the value of the current name |
| HttpHandler.HttpHandler.OnMessageComplete | v8jsi/inspector/inspector_socket.cpp:570-582 | turns what has been gathered into one request and forgets it |
| HttpHandler.HttpHandler.Feed | v8jsi/inspector/inspector_socket.cpp:497-499 | after a read the requests are those of the parser's run |
| HttpHandler.HttpHandler.OnData | v8jsi/inspector/inspector_socket.cpp:497-525 | one read: the requests of the run are answered as DeliverAnswers says, up to the first that is refused, and the delegate is told of nothing but GETs for allowed hosts that were read; an error cancels the handshake, an upgrade does not |
| HttpHandler.HttpHandler.Settle | v8jsi/inspector/inspector_socket.cpp:501-508 | an upgrade resumes the parser, any other stop cancels the handshake |
| HttpHandler.HttpHandler.HandleEvents | v8jsi/inspector/inspector_socket.cpp:510-524 | answers the requests of one read in order, as DeliverAnswers and DeliverHonest say |
| HttpHandler.HttpHandler.ReadAll | v8jsi/inspector/inspector_socket.cpp:497-582 | for every way of cutting the octets into reads, up to the first error or upgrade, the requests are those of the octets in one piece, and what is delivered is what each read delivers of the requests it completes |
| HttpHandler.ServedReads | v8jsi/inspector/inspector_socket.cpp:510-524 | requests that are all served are delivered as if they had come in one read, whatever the cuts |
| HttpRequests.LookupOne | v8jsi/inspector/inspector_socket.cpp:584-597 | the only header whose name begins with the one wanted is found, with its own value |
| HttpRequests.MessageGathered | v8jsi/inspector/inspector_socket.cpp:570-582 | a complete message is one event with its target, whether it is an upgrade and a GET, its key and its host; a body adds nothing, a trailer counts like headers, and the lines of a value are put together |
| HttpRequests.Pipeline | v8jsi/inspector/inspector_socket.cpp:497-582 | any number of messages in a row that do not stop the parser, with or without bodies, are heard one by one, each with the counter the one before leaves |
| HttpRequests.UpgradeHeard | v8jsi/inspector/inspector_socket.cpp:497-525 | with an upgrade behind them, with a body or without, the parser stops right behind it, and the handler has them all |
| HttpRequests.Converse | v8jsi/inspector/inspector_socket.cpp:448-613 | from the octets to the delegate: the requests heard are those sent, up to the upgrade, however the octets were cut into reads; each read delivers what it completes, and if none is refused, what is delivered is what they ask for, whatever the cuts |
| HttpRequests.ConversePlain | v8jsi/inspector/inspector_socket.cpp:448-613 | the same without an upgrade |
| HttpRequests.HandshakeAccepted | v8jsi/inspector/llhttp_http.c:14-71 | every opening handshake of section 4.1 of RFC 6455, with any other headers, is accepted wherever the counter stands, and stops the parser exactly if it stands at zero |
| HttpRequests.HandshakeHeard | v8jsi/inspector/inspector_socket.cpp:570-582 | it is an event marked as an upgrade, with its own target, host and key |
| HttpRequests.Upgrade | v8jsi/inspector/inspector_socket.cpp:448-613 | behind any messages that are served and leave the counter at zero, a handshake for an allowed host is delivered as a socket upgrade, however all of it was cut into reads |
| HttpSamples.HostDecides | v8jsi/inspector/inspector_socket.cpp:510-524 | from the octets to the delegate: a GET with any target, host and other headers is delivered if and only if its host is allowed, else the handshake is cancelled |
| HttpSamples.ForeignUpgrade | v8jsi/inspector/inspector_socket.cpp:599-604 | behind any messages that are served, an opening handshake for a host that is not allowed is cancelled |
| HttpSamples.SampleHosts | v8jsi/inspector/inspector_socket.cpp:174-195 | no host, LocalHost:9229, localhost6, 127.0.0.1 and [::1]:9229 are allowed, attacker.example is not |
| HttpSamples.ForeignCancelled | v8jsi/inspector/inspector_socket.cpp:513 | the octets of a GET with "Host: attacker.example": cancelled |
| HttpSamples.SampleUpgrade | v8jsi/inspector/inspector_socket.cpp:448-613 | the octets of an opening handshake for LocalHost:9229: a socket upgrade with its target, host and key |
| HttpSamples.PostTaken | v8jsi/inspector/llhttp_http.c:38-71 | a POST with any digits as its length: as many octets as the digits say by place value are its body, and what follows is the next request |
| HttpSamples.FiveTaken | v8jsi/inspector/llhttp.c:1592-1596 | the octets of a POST of "hello" with "content-length: 5": five octets are its body |
| HttpCases.OpeningIff | v8jsi/inspector/llhttp_http.c:74-84 | behind any messages the parser stops for an opening handshake if and only if they leave the counter at zero |
| HttpCases.OpeningMissed | v8jsi/inspector/llhttp_http.c:38-71 | if they do not, the handshake is heard as an upgrade all the same, and what follows is read as the next request |
| HttpCases.MissUpgrade | v8jsi/inspector/inspector_socket.cpp:497-525 | so octets behind it that begin no request cancel the handshake before the delegate is told of it |
| HttpCases.LeftoverAccepted | v8jsi/inspector/llhttp_http.c:74-84 | a chunked GET with the trailer "Content-Length: 1" leaves a one in the counter |
| HttpCases.MissBehindTrailer | v8jsi/inspector/inspector_socket.cpp:497-525 | the octets of that request, of a handshake and of a text frame in one read: cancelled, then a GET, then an upgrade |
| HttpCases.CrTaken | v8jsi/inspector/llhttp.c:1810-1835 | the octets of a POST with "content<CR>length: 1": the octet behind its head is its body |
| HttpCases.CrKeepsAlive | v8jsi/inspector/llhttp.c:1379-1404 | "keep<CR>alive" sets the keep-alive flag |
| HttpCases.NulSkipped | v8jsi/inspector/llhttp.c:1428-1468 | the value "close,<NUL>upgrade" is accepted in a Connection header, and in no other, and sets both flags |
| HttpCases.SecondLineIgnored | v8jsi/inspector/llhttp.c:4990-5098 | "Transfer-Encoding: chunked" stays chunked whatever a second line adds, and the word in the second line does nothing |
| HttpCases.ConnectHides | v8jsi/inspector/llhttp_http.c:38-84 | behind any CONNECT the parser stops for an opening handshake if and only if the CONNECT leaves the counter at zero |
| HttpCases.TunnelLeaves | v8jsi/inspector/llhttp_http.c:38-50 | a CONNECT with "Content-Length: 1" leaves a one |
| HttpCases.BothReads | v8jsi/inspector/inspector_socket.cpp:510-524 | what is delivered of any messages in one read, and in two that are cut between them |
| HttpCases.CutDecides | v8jsi/inspector/inspector_socket.cpp:510-524 | the octets of a POST and a GET in one read are cancelled; in two reads they are cancelled and the GET is served |
| HttpCases.LooseServed | v8jsi/inspector/llhttp.c:1183-1191 | a GET is served whatever octet comes where the last LF of its head should be |
| HttpCases.CutTarget | v8jsi/inspector/llhttp.c:6029-6047 | any method and target with a bad octet in it, in two buffers cut anywhere before it and in one: the same error, but the target is heard up to the cut, or not at all |
| HttpCases.HearTarget | v8jsi/inspector/llhttp.c:6029-6047 | the same of the callbacks that the parser makes |
| Sha1.NextWord | v8jsi/inspector/inspector_utils.h:62-69 | the source's expression (the xor of four words of the 16-word buffer, shifted left by one, or shifted right by 31) is the next word of the 80-word schedule of FIPS 180-4 |
| Sha1.R0 | v8jsi/inspector/inspector_utils.h:71-79 | with its arguments rotated, a round on a word of the block |
| Sha1.R1 | v8jsi/inspector/inspector_utils.h:82-91 | a round with Ch that also replaces a word of the buffer by the next of the schedule |
| Sha1.R2 | v8jsi/inspector/inspector_utils.h:93-102 | the same with Parity and the second constant |
| Sha1.R3 | v8jsi/inspector/inspector_utils.h:104-113 | the same with Maj |
| Sha1.R4 | v8jsi/inspector/inspector_utils.h:115-124 | the same with Parity and the last constant |
| Sha1.Transform | v8jsi/inspector/inspector_utils.h:139-236 | the 80 unrolled rounds on a circular block of 16 words are the digest update of section 6.1.2 of FIPS 180-4 with its schedule of 80 words |
| Sha1.MakeBlock | v8jsi/inspector/inspector_utils.h:126-137 | sixteen big-endian words |
| Sha1.Sha1Context.constructor | v8jsi/inspector/inspector_utils.h:251-262 | a new context stands for the empty message |
| Sha1.Sha1Context.Update | v8jsi/inspector/inspector_utils.h:264-287 | appends octets to the message, however many |
| Sha1.Sha1Context.Finish | v8jsi/inspector/inspector_utils.h:289-325 | writes the hash of the message, padded as section 5.1.1 of FIPS 180-4 says, into one block or two |
| Sha1.HashPieces | v8jsi/inspector/inspector_utils.h:251-325 | for any list of pieces the result is the hash of all of them end to end |
| Base64.Alphabet | v8jsi/inspector/inspector_utils.cpp:195-197 | the table of letters: A to Z, a to z, 0 to 9, + and /, in this order |
| Base64.RoundTrip | v8jsi/inspector/inspector_utils.cpp:182-239 | decoding as section 4 of RFC 4648 says gives back what was encoded, whatever its length |
| Base64.OnlyEncoding | v8jsi/inspector/inspector_utils.cpp:182-239 | the encoding is the only text that decodes to its input |
| Base64.Base64Encode | v8jsi/inspector/inspector_utils.cpp:182-239 | writes exactly the encoding and nothing else, up to the length at which its 32-bit indexes wrap |
| Base64.Unreached | v8jsi/inspector/inspector_utils.h:13-15 | that length is exact: for any longer input part of the encoding lies where the index cannot reach |
| AcceptSample.SampleDigest | v8jsi/inspector/inspector_utils.h:139-325 | the digest, by value and through two blocks, of the sample key of section 1.3 of RFC 6455 and the GUID: b37a4f2c c0624f16 90f64606 cf385945 b2bec4ea |
| WebSocket.GenerateAcceptString | v8jsi/inspector/inspector_socket.cpp:159-172 | always 28 characters, the only ones that decode to the digest of key and GUID (section 4.2.2 of RFC 6455) |
| AcceptSample.SampleAccept | v8jsi/inspector/inspector_socket.cpp:159-172 | GenerateAcceptString answers that key with "s3pPLMBiTxaQ9kYGzzhZRbK+xOo=", as the standard says |
| Utf.Utf16ToUtf8Length | v8jsi/inspector/inspector_utils.cpp:20-49 | the number of octets of the UTF-8 form, counted in 32 bits |
| Utf.Utf16ToUtf8 | v8jsi/inspector/inspector_utils.cpp:51-93 | fills exactly the length counted beforehand, with the UTF-8 form of the text's code points: it decodes to the text, and a standard decoder takes it exactly if the text is well-formed |
| Utf.Lossless | v8jsi/inspector/inspector_utils.cpp:51-93 | every sequence of 16-bit units comes back from its UTF-8 form, unpaired surrogates too |
| Utf.StandardIffWellFormed | v8jsi/inspector/inspector_utils.cpp:51-93 | the octets are UTF-8 as section 3 of RFC 3629 defines it exactly if the text is well-formed UTF-16 |
| Utf.SampleForms | v8jsi/inspector/inspector_utils.cpp:51-93 | the octets of a text with code points of two, three and four octets, and of an unpaired surrogate |
| WebSocketFrame.WireOctets | v8jsi/inspector/inspector_socket.cpp:221-247 | every octet of a frame on the wire: the first, the mask bit, the length in 7, 16 or 64 bits, the key, and each octet of the payload, against octet i mod 4 of the key if there is one |
| WebSocketFrame.ParseWire | v8jsi/inspector/inspector_socket.cpp:221-247 | a frame of section 5.2 of RFC 6455 reads back as itself, whatever follows |
| WebSocketFrame.WireParse | v8jsi/inspector/inspector_socket.cpp:221-247 | nothing else reads as that frame, so its length is in the shortest form |
| WebSocketFrame.ParseWireAll | v8jsi/inspector/inspector_socket.cpp:221-247 | frames in a row read back as themselves |
| WebSocket.EncodeFrame | v8jsi/inspector/inspector_socket.cpp:221-247 | the wire form of a final text frame without a mask |
| WebSocket.SentReadsBack | v8jsi/inspector/inspector_socket.cpp:365-368 | what was sent reads back as the messages, one frame each, and as nothing else |
| WebSocket.DecodeFrame | v8jsi/inspector/inspector_socket.cpp:249-333 | on every buffer the results are those of the decoding function; and when a frame is taken, the first octet, the mask bit, the octets consumed, and each octet of the output as the payload's octet against octet i mod 4 of the key are stated on the octets of the buffer |
| WebSocket.DecodeRefuses | v8jsi/inspector/inspector_socket.cpp:249-319 | exactly which buffers are refused |
| WebSocket.HelloFrames | v8jsi/inspector/inspector_socket.cpp:326-328 | the frames of section 5.7 of RFC 6455: 81 85 37 fa 21 3d 7f 9f 4d 51 58 is read as "Hello", and "Hello" is sent as 81 05 48 65 6c 6c 6f |
| WebSocket.DecodeWhole | v8jsi/inspector/inspector_socket.cpp:249-333 | a buffer that begins with a whole frame is refused, or the frame is taken to its last octet and unmasked |
| WebSocket.DecodeEarly | v8jsi/inspector/inspector_socket.cpp:321-322 | for every proper prefix of a frame, exactly when it is recognised as unfinished and when the decoder goes on behind the buffer |
| WebSocket.EarlyExample | v8jsi/inspector/inspector_socket.cpp:321-322 | two octets for which it goes on behind the buffer, so that nothing is known of the read |
| WebSocket.ReadAll | v8jsi/inspector/inspector_socket.cpp:353-363 | client text frames in one read are delivered in order and leave the buffer as if it had begun behind them |
| WebSocket.DeliverAll | v8jsi/inspector/inspector_socket.cpp:353-363 | a read of whole frames delivers exactly their payloads and empties the buffer |
| WebSocket.ReadEarly | v8jsi/inspector/inspector_socket.cpp:353-363 | a read of whole frames and the beginning of another delivers the whole ones and waits, or goes on behind the buffer, exactly as DecodeEarly says |
| WebSocket.TooLong | v8jsi/inspector/inspector_socket.cpp:249-254 | the bound of 2^31 octets is exact: a frame from there up to 2^32 is delivered and stays in the buffer |
| WebSocket.WsHandler.ParseWsFrames | v8jsi/inspector/inspector_socket.cpp:405-425 | one frame: delivered, or the end of the connection, or a close frame in answer; nothing is promised of a frame for which the decoder goes on behind the buffer |
| WebSocket.WsHandler.OnData | v8jsi/inspector/inspector_socket.cpp:353-363 | one read does what reading frame by frame says, and what stays in the buffer is the rest; if it ends in going on behind the buffer, only that what comes before is delivered |
| WebSocket.WsHandler.Write | v8jsi/inspector/inspector_socket.cpp:365-368 | adds one final text frame to what the peer reads |
| WebSocket.WsHandler.Shutdown | v8jsi/inspector/inspector_socket.cpp:371-378 | sends a close frame and stays until the connection ends, or goes at once if it has ended |
| WebSocket.WsHandler.PeerReads | v8jsi/inspector/inspector_socket.cpp:365-401 | whatever the handler does, the octets it has written read back as its text and close frames in order, and as nothing else; and it never deletes itself while the connection is there |
| TcpPump.Conserved | v8jsi/inspector/inspector_tcp.cpp:94-149 | in every interleaving: pushed = completed, the one message in flight, queue, in order; in flight is what the one owner of the slot has popped, then `messageToWrite_` until the send completes; and nothing is left when nobody is pending and no send has failed |
| TcpPump.Arrives | v8jsi/inspector/inspector_tcp.cpp:131-139 | the octets that arrive are those of the messages, in order, if and only if every send took its whole buffer |
| TcpPump.ShortSend | v8jsi/inspector/inspector_tcp.cpp:131-139 | a run in which one does not, and nobody comes for the rest |
| TcpPump.OneWriter | v8jsi/inspector/inspector_tcp.cpp:104-121 | the flag is set exactly while one thread, the socket or a failed send owns the slot, and no two do |
| TcpPump.BufferUntouched | v8jsi/inspector/inspector_tcp.cpp:125-131 | the buffer of a pending send is never written |
| TcpPump.FailureIsFinal | v8jsi/inspector/inspector_tcp.cpp:133-147 | after a send that fails nothing is ever sent again |
| TcpPump.Connection.PushMessage | v8jsi/inspector/inspector_tcp.cpp:94-99 | the locked section of write_async is the push step |
| TcpPump.Connection.TakeMessage | v8jsi/inspector/inspector_tcp.cpp:104-121 | the locked section of do_write is the lock step |
| TcpPump.Connection.DoWrite | v8jsi/inspector/inspector_tcp.cpp:104-149 | do_write alone is a run of the steps |
| Dispatcher.NothingStranded | v8jsi/inspector/inspector_agent.cpp:502-581 | in every interleaving, re-entrant dispatches included: posted = handled, rest of the batch, queue, in order; and a queue that is not empty has a dispatch scheduled, a poster about to schedule one, or a dispatcher that will swap again |
| Dispatcher.ChecksHold | v8jsi/inspector/inspector_agent.cpp:560-577 | in every interleaving in which sessions are posted well-bracketed, a check fails or a message meets no session if and only if a session is opened behind the #disconnect that follows a shutdown |
| Dispatcher.CheckFails | v8jsi/inspector/inspector_agent.cpp:443-453 | a run in which that happens: connect, shutdown, disconnect, connect |
| Dispatcher.CheckAt | v8jsi/inspector/inspector_agent.cpp:561-571 | the next message fails if and only if the session that a shutdown waits for has been closed |
| Dispatcher.AgentImpl.PostIncomingMessage | v8jsi/inspector/inspector_agent.cpp:517-527 | appends, and schedules a dispatch exactly if the queue was empty: the Post step and the Schedule step |
| Dispatcher.AgentImpl.HandleBatch | v8jsi/inspector/inspector_agent.cpp:552-578 | handles a batch in order, to its end or to the message that fails, whatever the messages: a run of HandleNext steps |
| Dispatcher.AgentImpl.DispatchMessages | v8jsi/inspector/inspector_agent.cpp:540-581 | a run of the foreground thread's steps: returns at once from inside another dispatch; else everything in the queue is handled in order, or it stops at a message that fails; well-bracketed sessions fail exactly as ChecksHold says |
| TaskRunner.OnePlace | v8jsi/platform/V8Platform.cpp:187-291 | in every interleaving each posted task is in exactly one place and runs at most once |
| TaskRunner.RunInOrder | v8jsi/platform/V8Platform.cpp:187-291 | tasks run in the order they were queued, those of a batch in order of their deadlines, and no delayed task before a reading of the clock beyond its deadline |
| TaskRunner.NotBefore | v8jsi/platform/V8Platform.cpp:196-216 | in every interleaving a task posted with a delay of s seconds is queued only behind a reading of the clock more than s times 10^9 nanoseconds beyond where it stood |
| TaskRunner.WorkerThreadsTaskRunner.PostDelayedTask | v8jsi/platform/V8Platform.cpp:196-216 | queues at once without a delay, else with its deadline: the PostDelayedTask step |
| TaskRunner.WorkerThreadsTaskRunner.CollectReady | v8jsi/platform/V8Platform.cpp:256-268 | takes out exactly the entries whose deadline has passed when the loop stops, earliest first; it is a run of the timer's steps |
| TaskRunner.WorkerThreadsTaskRunner.PublishReady | v8jsi/platform/V8Platform.cpp:272-281 | moves a batch behind the queue, first taken first: the Publish step |
| TaskRunner.WorkerThreadsTaskRunner.NextTask | v8jsi/platform/V8Platform.cpp:218-232 | takes the first task of the queue: the Take step |
| Handles.OneOwner | v8jsi/external_includes/jsi_ref/jsi/jsi.h:326-346 | over any sequence of construction, clone, move, assignment (to itself too), rvalue access and destruction each live PointerValue has exactly one owner, is invalidated at most once, and none is live when all objects are gone |
| Handles.StepKeeps | v8jsi/external_includes/jsi_ref/jsi/jsi.h:989-1092 | every such operation keeps ownership linear |
| Handles.MoveDoes | v8jsi/external_includes/jsi_ref/jsi/jsi.h:326-328 | every move to a new object, in any world in which the source is as given, is the step of that name, and leaves the runtime alone |
| Handles.CloneDoes | v8jsi/external_includes/jsi_ref/jsi/jsi.cpp:201-216 | likewise every clone, with what the runtime makes |
| Handles.PointerKinds | v8jsi/external_includes/jsi_ref/jsi/jsi.h:1105-1114 | the kinds of a value that own a pointer are those numbered from PointerKind on |
| Handles.PointerObject.Move | v8jsi/external_includes/jsi_ref/jsi/jsi.h:326-328 | takes the pointer and leaves none: the MovePointer step |
| Handles.PointerObject.Assign | v8jsi/external_includes/jsi_ref/jsi/jsi.cpp:112-119 | invalidates the old pointer and takes over the other's; assigned to itself it is left with none: the AssignPointer step |
| Handles.PointerObject.Destroy | v8jsi/external_includes/jsi_ref/jsi/jsi.h:330-334 | invalidates the pointer it has: the DestroyPointer step |
| Handles.ValueObject.Wrap | v8jsi/external_includes/jsi_ref/jsi/jsi.h:921-925 | takes the pointer of a string, symbol or object and its tag: the Wrap step |
| Handles.ValueObject.Move | v8jsi/external_includes/jsi_ref/jsi/jsi.cpp:189-199 | takes over tag and pointer and leaves undefined behind: the MoveValue step |
| Handles.ValueObject.Clone | v8jsi/external_includes/jsi_ref/jsi/jsi.cpp:201-216 | the same with a clone made by the runtime, and the other value untouched: the CloneValue step |
| Handles.ValueObject.Assign | v8jsi/external_includes/jsi_ref/jsi/jsi.h:989-993 | destroys what it held and takes over the other's: the AssignValue step |
| Handles.ValueObject.Destroy | v8jsi/external_includes/jsi_ref/jsi/jsi.cpp:218-222 | invalidates the pointer its tag speaks of: the DestroyValue step |
| Handles.ValueObject.Unwrap | v8jsi/external_includes/jsi_ref/jsi/jsi.cpp:270-278 | hands its pointer over if the tag is the one wanted, and else keeps it: the Unwrap step |
| Handles.ValueObject.UnwrapClone | v8jsi/external_includes/jsi_ref/jsi/jsi.cpp:261-268 | hands over a clone if the tag is the one wanted: the UnwrapClone step |
| Dynamic.RoundTrip | v8jsi/external_includes/jsi_ref/jsi/JSIDynamic.cpp:19-100 | a dynamic value comes back from JS as itself, with integers turned into doubles |
| Dynamic.UnchangedIff | v8jsi/external_includes/jsi_ref/jsi/JSIDynamic.cpp:19-100 | it comes back unchanged if and only if it holds no integers |
| Dynamic.JsRoundTrip | v8jsi/external_includes/jsi_ref/jsi/JSIDynamic.cpp:58-100 | a JS value that can be converted comes back with undefined turned into null and without the properties that are functions, and else as itself |
| Dynamic.JsUnchangedIff | v8jsi/external_includes/jsi_ref/jsi/JSIDynamic.cpp:58-100 | it comes back unchanged if and only if it holds neither |
| Dynamic.Settles | v8jsi/external_includes/jsi_ref/jsi/JSIDynamic.cpp:58-100 | what a JS value has become by one conversion, it stays |
| Dynamic.ValueFromDynamic | v8jsi/external_includes/jsi_ref/jsi/JSIDynamic.cpp:19-56 | the loops that fill arrays and objects build the converted tree |
| Dynamic.DynamicFromValue | v8jsi/external_includes/jsi_ref/jsi/JSIDynamic.cpp:58-100 | likewise, and fail exactly on a function that is no property |
| EtwCache.TraceContext.ControlCallback | v8jsi/etw/tracing.h:366-395 | under new settings the bit of an event is set if and only if its level is 0, or theirs is, or its level is not above theirs, and its keyword is 0, or shares a bit with matchAny and has every bit of matchAll; disabling clears all bits |
| EtwCache.EnabledIff | v8jsi/etw/tracing.h:259-287 | the test of level and keyword, by order of numbers and bit by bit |
| EtwCache.LevelRaised | v8jsi/etw/tracing.h:272-276 | raising a level that is not 0 disables no event |
| EtwCache.OtherBits | v8jsi/etw/tracing.h:374-380 | setting or clearing the bit of one event changes no other |
| EtwCache.SameTest | v8jsi/etw/tracing.h:213-217 | on little-endian memory the test by octets is the test by 32-bit words |
| EtwCache.RunCallbacks | v8jsi/etw/tracing.h:213-287 | after any sequence of control callbacks either test of an event's bit tells whether the settings in force are enabled and pass its level and keyword, by the conditions of ControlCallback |

## Left out

- Data callbacks of the HTTP parser are taken to return 0, as all of the inspector's do; the callbacks without data
  answer anything, through the parameter `Reply`.
- Settings and user data pointers, `llhttp_get_errno` and its like, `llhttp_set_error_reason` and debug output: they
  only read or write a field.
- Chains of blocks that only update fields are one block of the tables; the local variable `match` is an argument of
  the label it leads to; error texts are an enumeration.
- LlhttpRequest.KeepAliveSays: the parser's own program goes on in either case, so no result about runs needs it.
- LlhttpTargets.TargetRead: a target that ends with its line, which makes a request of HTTP/0.9, is in the tables only.
- LlhttpHeaders.ValueRead: a bare LF ends a value too; lines that end so are in the tables only.
- LlhttpHeaders.HeaderRead: likewise.
- LlhttpHeaders.SectionRead: likewise.
- LlhttpTrailers.ChunkedBody: its lines end in CRLF; what else can stand there is in AnyOctet and HeadersEnd.
- Status lines of responses, and bodies that run to the end of the connection, are in the tables, in `Finish` and in
  the results about splitting and numbers; the inspector reads requests only.
- HttpHandler.HttpHandler.Feed: the callbacks are played to the handler after the parser has returned, not during the
  call; the handler's callbacks do not touch the parser, so the order they see is the same.
- The texts of the responses in `AcceptUpgrade` and `CancelHandshake`, closing sockets, asio, and what delegates do
  with what they are told.
- HttpRequests.Converse: reads behind the upgrade belong to another protocol handler and are not part of this model.
- The session server in inspector_socket_server.cpp is not part of this model.
- Pointers that can be null in `utf16toUTF8` are sequences here, and an empty one gives the empty result.
- Utf.Utf16ToUtf8: for an output of 2^32 octets or more the length wraps and the source writes behind its string; that
  case is excluded.
- Sha1.Sha1Context.Finish: the specification counts the length modulo 2^64 bits, as the source does; below 2^61 octets
  that is the standard.
- size_t has 64 bits.
- WebSocket.DecodeFrame: what the source reads behind the end of its buffer is a result of its own here, and nothing is
  said of what it leads to.
- WebSocket.WsHandler.OnData: likewise; the source delivers what it finds there and erases more than the buffer holds.
- WebSocket.EncodeFrame: messages of 2^63 octets or more do not exist in memory and are excluded.
- Octets left in the buffer of a WebSocket read are not kept between reads by the source, so nothing is stated across
  reads.
- The callback behind a written close frame never runs in the source, and is left out with the rest of the handshake.
- Sha1: the eighty calls of the unrolled rounds are written in groups of five and ten.
- Dispatcher: the signal to the server to accept no more clients, which a shutdown sends, is not part of this model,
  so a client can connect behind it; connect and disconnect are tags of messages; `waiting_for_frontend_`, the pause
  loop and the condition variable are left out, and only safety is stated.
- TcpPump: an aborted send ends the process in the source; any other error is the step that fails. `async_send` may
  take less than the whole buffer, which the step that completes a send says; reading is left out.
- TaskRunner: one monotone clock for both of the source's; the unlocked test of `delayed_task_queue_.empty()` before
  sleeping, the waits of the destructor and liveness are left out. A delay is a real number.
- Handles: cloning that throws, scopes, property names and `createValueFromJsonUtf8`. Each constructor and method of
  the classes is proved to be a step in every world that agrees with its objects; that a program's objects have names
  in one world is not modelled.
- Dynamic: doubles are their 64 bits, so NaNs and infinities are included, but that an engine may change the bits of a
  NaN is not; symbols, cyclic values, the key `__proto__` and keys that are not strings are left out; strings are taken
  to survive the conversion to UTF-8 and back; the conversion of an integer to a double is an arbitrary function
  `Cast`.
- EtwCache: registration, the private callback and the writing of events.
- The calls into V8 (V8JsiRuntime and its relatives), decorator.h, threadsafe.h, DLL entry points and build files:
  thin forwarding.
