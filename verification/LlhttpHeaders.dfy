/** Header lines and header sections: what a whole section does to the message and what is reported of it. */
module LlhttpHeaders {
  import opened Bytes
  import opened LlhttpTypes
  import opened LlhttpTables
  import opened Llparse
  import opened LlparseBulk
  import opened LlhttpProgram
  import opened LlhttpNumbers
  import opened LlhttpChunks
  import opened LlhttpNames
  import opened LlhttpValues
  import opened LlhttpConnection

  // ---------------------------------------------------------------- one line of a value

  /** Where a line of a value is read, by header state. */
  function LoadedState(n: nat): Label {
    if n == 1 then Conn(HeaderValueConnection) else if n == 2 then Value(TestFlags2)
    else if n == 3 then Value(HeaderValueTeChunked) else if n == 4 then Value(OrFlags16) else Value(HeaderValue)
  }

  /** The fields behind a line of a value, by the header state that it finds; a flag that is remembered is not yet set. */
  function PartFields(f: Fields, s: seq<byte>): Fields {
    if f.headerState == 1 then ListFields(f, s)
    else if f.headerState == 2 then WithLength(f, s)
    else if f.headerState == 3 then ChunkedMark(f, IsWord(s, CHUNKED))
    else if f.headerState == 4 then f.(flags := f.flags | F_UPGRADE, headerState := 0)
    else f
  }

  predicate PartAccepted(f: Fields, s: seq<byte>) {
    if f.headerState == 1 then IsList(s) else if f.headerState == 2 then FirstLength(f, s) else IsValue(s)
  }

  /** What is reported on top of a line. */
  function ExtraOf(n: nat, s: seq<byte>): seq<byte> {
    if n == 1 then ExtraOctets(s) else []
  }

  lemma PartOfState(r: Reply, c: Config, s: seq<byte>, rest: seq<byte>)
    requires var n := c.fields.headerState; InValue(c, LoadedState(n)) && (n == 3 ==> |s| > 0 && s[0] != SP)
    requires NoLf(s)
    ensures PartEnds(r, c, s, rest, If(PartAccepted(c.fields, s), PartFields(c.fields, s)), ExtraOf(c.fields.headerState, s))
  {
    hide HttpRun, HttpReady;
    var n := c.fields.headerState;
    if n == 1 {
      Listed(r, c, s, rest);
    } else if n == 2 {
      Sized(r, c, s, rest);
    } else if n == 3 {
      Coded(r, c, s, rest);
    } else if n == 4 {
      Upgraded(r, c, s, rest);
    } else {
      Plain(r, c, s, rest);
    }
  }

  lemma Loaded(f: Fields)
    ensures Invoked(Value(LoadHeaderState1), f) == (f, LoadedState(f.headerState))
    ensures SpanOf(LoadedState(f.headerState)) == ValueSpan
  {
  }

  /** A line of a value: exactly those are accepted that fit the header state. */
  lemma PartRead(r: Reply, c: Config, s: seq<byte>, rest: seq<byte>)
    requires InValue(c, Value(LoadHeaderState1)) && (c.fields.headerState == 3 ==> |s| > 0 && s[0] != SP)
    requires NoLf(s)
    ensures PartEnds(r, c, s, rest, If(PartAccepted(c.fields, s), PartFields(c.fields, s)), ExtraOf(c.fields.headerState, s))
  {
    hide HttpRun, HttpReady;
    var next := LoadedState(c.fields.headerState);
    Loaded(c.fields);
    if InValue(c.(place := next), next) {
      PartOfState(r, c.(place := next), s, rest);
    }
    PartVia(r, c, Value(LoadHeaderState1), next, s, rest, If(PartAccepted(c.fields, s), PartFields(c.fields, s)),
            ExtraOf(c.fields.headerState, s));
  }

  // ---------------------------------------------------------------- lines that continue a value

  /** A line that begins with a blank continues the value before it. */
  predicate IsFold(s: seq<byte>) {
    |s| > 0 && IsBlank(s[0]) && NoLf(s)
  }

  predicate AreFolds(folds: seq<seq<byte>>) {
    |folds| > 0 ==> IsFold(folds[0]) && AreFolds(folds[1..])
  }

  function FoldsText(folds: seq<seq<byte>>): seq<byte> {
    if |folds| == 0 then [] else folds[0] + CRLF + FoldsText(folds[1..])
  }

  /** The header state behind a line, and the flags that it sets. */
  function PartState(n: nat, s: seq<byte>): nat {
    if n == 1 then ListState(1, s) else if n == 3 then (if IsWord(s, CHUNKED) then 8 else 0) else if n == 4 then 0 else n
  }

  function PartFlags(n: nat, s: seq<byte>): bv8 {
    if n == 1 then ListFlags(1, s) else if n == 2 then F_CONTENT_LENGTH else if n == 4 then F_UPGRADE else 0
  }

  lemma PartLeaves(f: Fields, s: seq<byte>)
    ensures PartFields(f, s) ==
      f.(flags := f.flags | PartFlags(f.headerState, s), headerState := PartState(f.headerState, s),
         contentLength := if f.headerState == 2 then Length(f.contentLength, s) else f.contentLength)
  {
    hide ListFields, ListState, ListFlags, Length, IsWord;
    OrNothing(f.flags);
    if f.headerState == 1 {
      ListLeaves(f, s);
    }
  }

  lemma StateOn(n: nat, s: seq<byte>)
    ensures PartState(n, s) != 3 && (PartState(n, s) == 2 <==> n == 2)
  {
    if n == 1 {
      ListSays(1, s);
    }
  }

  /** The lines of a value behind its first, by the header state they find. */
  function LinesState(n: nat, folds: seq<seq<byte>>): nat
    decreases |folds|
  {
    if |folds| == 0 then n else LinesState(PartState(n, folds[0]), folds[1..])
  }

  function LinesFlags(n: nat, folds: seq<seq<byte>>): bv8
    decreases |folds|
  {
    if |folds| == 0 then 0 else PartFlags(n, folds[0]) | LinesFlags(PartState(n, folds[0]), folds[1..])
  }

  /** The lines fit. No line continues a length. */
  predicate LinesFit(n: nat, folds: seq<seq<byte>>)
    decreases |folds|
  {
    |folds| > 0 ==>
      n != 2 && (if n == 1 then IsList(folds[0]) else IsValue(folds[0])) && LinesFit(PartState(n, folds[0]), folds[1..])
  }

  function LinesEvents(n: nat, folds: seq<seq<byte>>): seq<Event>
    decreases |folds|
  {
    if |folds| == 0 then []
    else [Span(ValueSpan, folds[0] + ExtraOf(n, folds[0]))] + LinesEvents(PartState(n, folds[0]), folds[1..])
  }

  /** At the start of the next header line: the flag that is remembered is set. */
  function NextLine(f: Fields, out: seq<Event>): Config {
    Config(Field(HeaderFieldStart), SettleHeaderState(f), None, out)
  }

  lemma LineSettled(r: Reply, c: Config, rest: seq<byte>)
    requires HttpReady(c) && c.place == Value(LoadHeaderState2)
    ensures HttpReady(NextLine(c.fields, c.out)) && HttpRun(r, c, rest) == HttpRun(r, NextLine(c.fields, c.out), rest)
  {
    assert c.pending.None?;
    Slide(r, c, rest, NextLine(c.fields, c.out));
  }

  lemma LineOver(r: Reply, c: Config, rest: seq<byte>)
    requires HttpReady(c) && c.place == Value(HeaderValueLws) && NewLine(rest)
    ensures HttpReady(NextLine(c.fields, c.out)) && HttpRun(r, c, rest) == HttpRun(r, NextLine(c.fields, c.out), rest)
  {
    hide SettleHeaderState;
    Slide(r, c, rest, c.(place := Value(LoadHeaderState2)));
    LineSettled(r, c.(place := Value(LoadHeaderState2)), rest);
  }

  lemma LineFolds(r: Reply, c: Config, input: seq<byte>)
    requires HttpReady(c) && c.place == Value(HeaderValueLws) && |input| > 0 && IsBlank(input[0])
    ensures var d := c.(place := Value(LoadHeaderState1), pending := Some(Pending(ValueSpan, [])));
      InValue(d, Value(LoadHeaderState1)) && HttpRun(r, c, input) == HttpRun(r, d, input)
  {
    assert c.pending.None?;
    var s := c.(place := Value(SpanStartHeaderValue1));
    Slide(r, c, input, s);
    Slide(r, s, input, c.(place := Value(LoadHeaderState1), pending := Some(Pending(ValueSpan, []))));
  }

  /** One line that continues a value. */
  lemma FoldRead(r: Reply, c: Config, s: seq<byte>, rest: seq<byte>)
    requires HttpReady(c) && c.place == Value(HeaderValueLws) && c.fields.headerState != 3 && IsFold(s)
    ensures var o := HttpRun(r, c, s + CRLF + rest); var n := c.fields.headerState;
      if PartAccepted(c.fields, s) then
        var d := Config(Value(HeaderValueLws), PartFields(c.fields, s), None, c.out + [Span(ValueSpan, s + ExtraOf(n, s))]);
        HttpReady(d) && o == HttpRun(r, d, rest)
      else BadValue(o)
  {
    hide HttpRun, HttpReady;
    var input := s + (CRLF + rest);
    assert s + CRLF + rest == input && input[0] == s[0];
    LineFolds(r, c, input);
    PartRead(r, c.(place := Value(LoadHeaderState1), pending := Some(Pending(ValueSpan, []))), s, rest);
    assert [] + (s + ExtraOf(c.fields.headerState, s)) == s + ExtraOf(c.fields.headerState, s);
  }

  /** Behind the first line of a value: the fields when all the others have been read. */
  function LinesFields(f: Fields, folds: seq<seq<byte>>): Fields {
    f.(flags := f.flags | LinesFlags(f.headerState, folds), headerState := LinesState(f.headerState, folds))
  }

  lemma LinesLeave(f: Fields, folds: seq<seq<byte>>)
    requires |folds| > 0 && f.headerState != 2
    ensures LinesFields(PartFields(f, folds[0]), folds[1..]) == LinesFields(f, folds)
  {
    PartLeaves(f, folds[0]);
    OrTwice(f.flags, PartFlags(f.headerState, folds[0]), LinesFlags(PartState(f.headerState, folds[0]), folds[1..]));
  }

  /** Any number of lines that continue a value, and the start of the next header. */
  lemma {:induction false} LinesRead(r: Reply, c: Config, folds: seq<seq<byte>>, rest: seq<byte>)
    requires HttpReady(c) && c.place == Value(HeaderValueLws) && c.fields.headerState != 3
    requires c.fields.headerState == 2 ==> c.fields.flags & F_CONTENT_LENGTH != 0
    requires AreFolds(folds) && NewLine(rest)
    ensures var o := HttpRun(r, c, FoldsText(folds) + rest); var n := c.fields.headerState;
      if LinesFit(n, folds) then
        var d := NextLine(LinesFields(c.fields, folds), c.out + LinesEvents(n, folds));
        HttpReady(d) && o == HttpRun(r, d, rest)
      else BadValue(o)
    decreases |folds|
  {
    hide HttpRun, HttpReady;
    if |folds| == 0 {
      NoLines(c.fields, c.out);
      assert FoldsText(folds) + rest == rest;
      LineOver(r, c, rest);
    } else {
      var s, more := folds[0], folds[1..];
      var tail := FoldsText(more) + rest;
      assert FoldsText(folds) + rest == s + CRLF + tail;
      FoldRead(r, c, s, tail);
      if PartAccepted(c.fields, s) {
        StateOn(c.fields.headerState, s);
        PartLeaves(c.fields, s);
        LinesLeave(c.fields, folds);
        var told := Span(ValueSpan, s + ExtraOf(c.fields.headerState, s));
        var d := Config(Value(HeaderValueLws), PartFields(c.fields, s), None, c.out + [told]);
        LinesRead(r, d, more, rest);
        Regroup(c.out, [told], LinesEvents(d.fields.headerState, more));
      }
    }
  }

  lemma NoLines(f: Fields, out: seq<Event>)
    ensures LinesFields(f, []) == f && out + LinesEvents(f.headerState, []) == out
  {
    OrNothing(f.flags);
  }

  // ---------------------------------------------------------------- blanks behind the colon

  /** Blanks, with line ends among them that another blank follows. */
  predicate IsGap(s: seq<byte>) {
    |s| > 0 ==>
      if IsBlank(s[0]) then IsGap(s[1..])
      else if s[0] == LF then |s| >= 2 && IsBlank(s[1]) && IsGap(s[2..])
      else |s| >= 3 && s[0] == CR && IsBlank(s[2]) && IsGap(s[3..])
  }

  lemma BlankSkipped(r: Reply, c: Config, x: byte, tail: seq<byte>)
    requires HttpReady(c) && c.place == Value(HeaderValueDiscardWs) && IsBlank(x)
    ensures HttpRun(r, c, [x] + tail) == HttpRun(r, c, tail)
  {
    assert c.pending.None? && ([x] + tail)[1..] == tail;
    Take(r, c, [x] + tail, c);
  }

  lemma CrTaken(r: Reply, c: Config, x: byte, tail: seq<byte>)
    requires HttpReady(c) && c.place == Value(HeaderValueDiscardWs)
    ensures var d := c.(place := Value(HeaderValueDiscardLws));
      HttpReady(d) && HttpRun(r, c, [CR, x] + tail) == HttpRun(r, d, tail)
  {
    var e := c.(place := Value(HeaderValueDiscardWsAlmostDone));
    assert c.pending.None? && ([CR, x] + tail)[1..] == [x] + tail && ([x] + tail)[1..] == tail;
    Take(r, c, [CR, x] + tail, e);
    Take(r, e, [x] + tail, c.(place := Value(HeaderValueDiscardLws)));
  }

  lemma LfTaken(r: Reply, c: Config, tail: seq<byte>)
    requires HttpReady(c) && c.place == Value(HeaderValueDiscardWs)
    ensures var d := c.(place := Value(HeaderValueDiscardLws));
      HttpReady(d) && HttpRun(r, c, [LF] + tail) == HttpRun(r, d, tail)
  {
    assert c.pending.None? && ([LF] + tail)[1..] == tail;
    Take(r, c, [LF] + tail, c.(place := Value(HeaderValueDiscardLws)));
  }

  lemma BreakBegins(r: Reply, c: Config, e: seq<byte>, tail: seq<byte>)
    requires HttpReady(c) && c.place == Value(HeaderValueDiscardWs) && IsEnd(e)
    ensures var d := c.(place := Value(HeaderValueDiscardLws));
      HttpReady(d) && HttpRun(r, c, e + tail) == HttpRun(r, d, tail)
  {
    hide HttpRun, HttpReady;
    if e == [LF] {
      LfTaken(r, c, tail);
    } else {
      assert e == [CR, e[1]];
      CrTaken(r, c, e[1], tail);
    }
  }

  lemma BreakLeft(r: Reply, c: Config, x: byte, tail: seq<byte>)
    requires HttpReady(c) && c.place == Value(HeaderValueDiscardLws) && IsBlank(x)
    ensures var d := c.(place := Value(HeaderValueDiscardWs));
      HttpReady(d) && HttpRun(r, c, [x] + tail) == HttpRun(r, d, tail)
  {
    assert c.pending.None? && ([x] + tail)[1..] == tail;
    Take(r, c, [x] + tail, c.(place := Value(HeaderValueDiscardWs)));
  }

  lemma BreakSkipped(r: Reply, c: Config, e: seq<byte>, x: byte, tail: seq<byte>)
    requires HttpReady(c) && c.place == Value(HeaderValueDiscardWs) && IsEnd(e) && IsBlank(x)
    ensures HttpRun(r, c, e + ([x] + tail)) == HttpRun(r, c, tail)
  {
    hide HttpRun, HttpReady;
    BreakBegins(r, c, e, [x] + tail);
    BreakLeft(r, c.(place := Value(HeaderValueDiscardLws)), x, tail);
    assert c.(place := Value(HeaderValueDiscardWs)) == c;
  }

  lemma {:induction false} GapSkipped(r: Reply, c: Config, gap: seq<byte>, tail: seq<byte>)
    requires HttpReady(c) && c.place == Value(HeaderValueDiscardWs) && IsGap(gap)
    ensures HttpRun(r, c, gap + tail) == HttpRun(r, c, tail)
    decreases |gap|
  {
    hide HttpRun, HttpReady;
    if |gap| == 0 {
      assert gap + tail == tail;
    } else if IsBlank(gap[0]) {
      assert gap + tail == [gap[0]] + (gap[1..] + tail);
      BlankSkipped(r, c, gap[0], gap[1..] + tail);
      GapSkipped(r, c, gap[1..], tail);
    } else {
      var k := if gap[0] == LF then 1 else 2;
      assert gap + tail == gap[..k] + ([gap[k]] + (gap[k + 1..] + tail));
      BreakSkipped(r, c, gap[..k], gap[k], gap[k + 1..] + tail);
      GapSkipped(r, c, gap[k + 1..], tail);
    }
  }

  lemma ValueOpened(r: Reply, c: Config, input: seq<byte>)
    requires HttpReady(c) && c.place == Value(HeaderValueDiscardWs)
    requires |input| > 0 && !IsBlank(input[0]) && input[0] != CR && input[0] != LF
    ensures var d := c.(place := Value(LoadHeaderState1), pending := Some(Pending(ValueSpan, [])));
      InValue(d, Value(LoadHeaderState1)) && HttpRun(r, c, input) == HttpRun(r, d, input)
  {
    var s := c.(place := Value(SpanStartHeaderValue1));
    assert c.pending.None?;
    Slide(r, c, input, s);
    Slide(r, s, input, c.(place := Value(LoadHeaderState1), pending := Some(Pending(ValueSpan, []))));
  }

  lemma EmptyLine(r: Reply, c: Config, rest: seq<byte>)
    requires HttpReady(c) && c.place == Value(HeaderValueDiscardLws) && NewLine(rest)
    ensures var d := c.(place := Value(SpanStartHeaderValue), fields := SettleHeaderState(c.fields));
      HttpReady(d) && HttpRun(r, c, rest) == HttpRun(r, d, rest)
  {
    assert c.pending.None?;
    Slide(r, c, rest, c.(place := Value(LoadHeaderState)));
    Slide(r, c.(place := Value(LoadHeaderState)), rest,
          c.(place := Value(SpanStartHeaderValue), fields := SettleHeaderState(c.fields)));
  }

  lemma EmptySpan(r: Reply, c: Config, rest: seq<byte>)
    requires HttpReady(c) && c.place == Value(SpanStartHeaderValue) && |rest| > 0
    ensures var d := Config(Field(HeaderFieldStart), c.fields, None, c.out + [Span(ValueSpan, [])]);
      HttpReady(d) && HttpRun(r, c, rest) == HttpRun(r, d, rest)
  {
    assert c.pending.None?;
    var s := c.(place := Value(SpanEndHeaderValue), pending := Some(Pending(ValueSpan, [])));
    Slide(r, c, rest, s);
    Slide(r, s, rest, Close(s, ValueSpan, Field(HeaderFieldStart)));
  }

  lemma EmptyValue(r: Reply, c: Config, e: seq<byte>, rest: seq<byte>)
    requires HttpReady(c) && c.place == Value(HeaderValueDiscardWs) && IsEnd(e) && NewLine(rest)
    ensures var d := NextLine(c.fields, c.out + [Span(ValueSpan, [])]);
      HttpReady(d) && HttpRun(r, c, e + rest) == HttpRun(r, d, rest)
  {
    hide HttpRun, HttpReady;
    BreakBegins(r, c, e, rest);
    EmptyLine(r, c.(place := Value(HeaderValueDiscardLws)), rest);
    NoneOpen(c);
    EmptySpan(r, c.(place := Value(SpanStartHeaderValue), fields := SettleHeaderState(c.fields)), rest);
  }

  lemma NoneOpen(c: Config)
    requires HttpReady(c) && SpanOf(c.place) == NoSpan && !c.place.Fail?
    ensures c.pending.None?
  {
  }

  // ---------------------------------------------------------------- header lines

  /** A header: a name, blanks behind the colon, a value and the lines that continue it, or no value and the end of the
      line. */
  datatype Header = Header(name: seq<byte>, blanks: seq<byte>, value: seq<byte>, folds: seq<seq<byte>>, end: seq<byte>)

  /** A header of one line. */
  function OneLine(name: seq<byte>, blanks: seq<byte>, value: seq<byte>): Header {
    Header(name, blanks, value, [], CRLF)
  }

  /** The shape of a header, whatever its octets: the name begins with no line break and ends at the first colon, the
      value begins with no blank and no CR, the other lines with a blank, and no line holds a LF. */
  predicate IsLine(h: Header) {
    && NoColon(h.name) && (|h.name| > 0 ==> h.name[0] != CR && h.name[0] != LF)
    && IsGap(h.blanks)
    && NoLf(h.value) && (|h.value| > 0 ==> !IsBlank(h.value[0]) && h.value[0] != CR)
    && AreFolds(h.folds) && (h.value == [] ==> h.folds == []) && IsEnd(h.end)
  }

  /** What follows the colon. */
  function ValueText(h: Header): seq<byte> {
    h.blanks + if h.value == [] then h.end else h.value + CRLF + FoldsText(h.folds)
  }

  function HeaderText(h: Header): seq<byte> {
    h.name + ([COLON] + ValueText(h))
  }

  /** The value and the lines that continue it are accepted: only the first Content-Length of a message is, and only if it
      is a length of one line. */
  predicate ValueAccepted(f: Fields, n: nat, value: seq<byte>, folds: seq<seq<byte>>) {
    if value == [] then true
    else if n == 2 then FirstLength(f, value) && folds == []
    else LinesFit(n, [value] + folds)
  }

  function ValueFlags(n: nat, value: seq<byte>, folds: seq<seq<byte>>): bv8 {
    if value == [] then 0
    else LinesFlags(n, [value] + folds) | FlagBits(LinesState(n, [value] + folds))
  }

  function ValueState(n: nat, value: seq<byte>, folds: seq<seq<byte>>): nat {
    if value == [] then n else Settled(LinesState(n, [value] + folds))
  }

  /** The counter after a value. */
  function ValueLength(n: nat, value: seq<byte>, length: nat): nat {
    if n == 2 && value != [] then Length(length, value) else length
  }

  /** What a header with name state `n` does to the message. */
  function Effect(f: Fields, n: nat, value: seq<byte>, folds: seq<seq<byte>>): Fields {
    f.(flags := f.flags | ValueFlags(n, value, folds), contentLength := ValueLength(n, value, f.contentLength),
       headerState := ValueState(n, value, folds))
  }

  function ValueEvents(n: nat, value: seq<byte>, folds: seq<seq<byte>>): seq<Event> {
    if value == [] then [Span(ValueSpan, [])] else LinesEvents(n, [value] + folds)
  }

  /** From behind the colon to the next header. */
  ghost predicate ValueEnds(r: Reply, c: Config, h: Header, rest: seq<byte>) {
    var n := c.fields.headerState;
    var o := HttpRun(r, c, ValueText(h) + rest);
    if ValueAccepted(c.fields, n, h.value, h.folds) then
      var d := Config(Field(HeaderFieldStart), Effect(c.fields, n, h.value, h.folds), None,
                      c.out + ValueEvents(n, h.value, h.folds));
      HttpReady(d) && o == HttpRun(r, d, rest)
    else BadValue(o)
  }

  lemma AllLines(f: Fields, value: seq<byte>, folds: seq<seq<byte>>)
    requires value != []
    ensures var n, g := f.headerState, PartFields(f, value);
      && (n != 2 ==> (LinesFit(n, [value] + folds) <==> PartAccepted(f, value) && LinesFit(g.headerState, folds)))
      && (n == 2 ==> (FirstLength(f, value) && folds == [] <==> PartAccepted(f, value) && LinesFit(g.headerState, folds)))
      && LinesEvents(n, [value] + folds) == [Span(ValueSpan, value + ExtraOf(n, value))] + LinesEvents(g.headerState, folds)
  {
    var all := [value] + folds;
    assert all[0] == value && all[1..] == folds;
    PartLeaves(f, value);
  }

  lemma AllFields(f: Fields, value: seq<byte>, folds: seq<seq<byte>>)
    requires value != [] && (f.headerState == 2 ==> folds == [])
    ensures SettleHeaderState(LinesFields(PartFields(f, value), folds)) == Effect(f, f.headerState, value, folds)
  {
    var n, all := f.headerState, [value] + folds;
    assert all[0] == value && all[1..] == folds;
    PartLeaves(f, value);
    SettledFields(LinesFields(PartFields(f, value), folds));
    OrTwice(f.flags, PartFlags(n, value), LinesFlags(PartState(n, value), folds));
    OrTwice(f.flags, LinesFlags(n, all), FlagBits(LinesState(n, all)));
  }

  lemma FirstLine(r: Reply, c: Config, h: Header, rest: seq<byte>)
    requires HttpReady(c) && c.place == Value(HeaderValueDiscardWs) && IsLine(h) && |h.value| > 0
    ensures var n := c.fields.headerState; var tail := FoldsText(h.folds) + rest;
      var o := HttpRun(r, c, ValueText(h) + rest);
      if PartAccepted(c.fields, h.value) then
        var told := Span(ValueSpan, h.value + ExtraOf(n, h.value));
        var d := Config(Value(HeaderValueLws), PartFields(c.fields, h.value), None, c.out + [told]);
        HttpReady(d) && o == HttpRun(r, d, tail)
      else BadValue(o)
  {
    hide HttpRun, HttpReady;
    var tail := FoldsText(h.folds) + rest;
    var input := h.value + (CRLF + tail);
    assert ValueText(h) + rest == h.blanks + input && input[0] == h.value[0];
    assert h.value[0] in h.value;
    GapSkipped(r, c, h.blanks, input);
    ValueOpened(r, c, input);
    PartRead(r, c.(place := Value(LoadHeaderState1), pending := Some(Pending(ValueSpan, []))), h.value, tail);
    assert [] + (h.value + ExtraOf(c.fields.headerState, h.value)) == h.value + ExtraOf(c.fields.headerState, h.value);
  }

  lemma LengthFlagged(f: Fields, s: seq<byte>)
    requires f.headerState == 2
    ensures PartFields(f, s).flags & F_CONTENT_LENGTH != 0
  {
    BitSet(f.flags);
  }

  lemma BitSet(flags: bv8)
    ensures (flags | F_CONTENT_LENGTH) & F_CONTENT_LENGTH != 0
  {
  }

  lemma ValueLines(r: Reply, c: Config, h: Header, rest: seq<byte>)
    requires HttpReady(c) && c.place == Value(HeaderValueDiscardWs) && IsLine(h) && |h.value| > 0 && NewLine(rest)
    ensures ValueEnds(r, c, h, rest)
  {
    hide HttpRun, HttpReady;
    var n := c.fields.headerState;
    FirstLine(r, c, h, rest);
    AllLines(c.fields, h.value, h.folds);
    if PartAccepted(c.fields, h.value) {
      var told := Span(ValueSpan, h.value + ExtraOf(n, h.value));
      var g := PartFields(c.fields, h.value);
      PartLeaves(c.fields, h.value);
      StateOn(n, h.value);
      if n == 2 {
        LengthFlagged(c.fields, h.value);
      }
      LinesRead(r, Config(Value(HeaderValueLws), g, None, c.out + [told]), h.folds, rest);
      Regroup(c.out, [told], LinesEvents(g.headerState, h.folds));
      if LinesFit(g.headerState, h.folds) {
        AllFields(c.fields, h.value, h.folds);
      }
    }
  }

  /** Behind the colon of a header, whatever its octets: exactly the values that fit the name are accepted; they are
      reported line by line, and have the effect of their header. */
  lemma ValueRead(r: Reply, c: Config, h: Header, rest: seq<byte>)
    requires HttpReady(c) && c.place == Value(HeaderValueDiscardWs) && c.fields.headerState <= 4
    requires IsLine(h) && NewLine(rest)
    ensures ValueEnds(r, c, h, rest)
  {
    hide HttpRun, HttpReady;
    if |h.value| == 0 {
      assert ValueText(h) + rest == h.blanks + (h.end + rest);
      GapSkipped(r, c, h.blanks, h.end + rest);
      EmptyValue(r, c, h.end, rest);
      NoValue(c.fields);
    } else {
      ValueLines(r, c, h, rest);
    }
  }

  lemma NoValue(f: Fields)
    requires f.headerState <= 4
    ensures SettleHeaderState(f) == Effect(f, f.headerState, [], [])
  {
    OrNothing(f.flags);
  }

  lemma ValueBegins(h: Header, rest: seq<byte>)
    requires |h.value| > 0
    ensures var input := h.value + (CRLF + (FoldsText(h.folds) + rest));
      ValueText(h) + rest == h.blanks + input && input[0] == h.value[0]
  {
    hide FoldsText;
  }

  /** A Content-Length that is not accepted is an error that says so. */
  lemma ValueRefused(r: Reply, c: Config, h: Header, rest: seq<byte>)
    requires HttpReady(c) && c.place == Value(HeaderValueDiscardWs) && c.fields.headerState == 2
    requires IsLine(h) && IsValue(h.value) && !ValueAccepted(c.fields, 2, h.value, h.folds)
    ensures BadLength(HttpRun(r, c, ValueText(h) + rest))
  {
    hide HttpRun, HttpReady;
    if FirstLength(c.fields, h.value) {
      FirstLine(r, c, h, rest);
      var told := Span(ValueSpan, h.value + ExtraOf(2, h.value));
      var d := Config(Value(HeaderValueLws), PartFields(c.fields, h.value), None, c.out + [told]);
      LengthFlagged(c.fields, h.value);
      FoldedLength(r, d, FoldsText(h.folds) + rest);
    } else {
      var input := h.value + (CRLF + (FoldsText(h.folds) + rest));
      ValueBegins(h, rest);
      assert h.value[0] in h.value;
      hide ValueText, FoldsText, IsValue;
      GapSkipped(r, c, h.blanks, input);
      ValueOpened(r, c, input);
      var d := c.(place := Value(LoadHeaderState1), pending := Some(Pending(ValueSpan, [])));
      LengthLoaded(r, d, input);
      NotSized(r, d.(place := Value(TestFlags2)), h.value, FoldsText(h.folds) + rest);
    }
  }

  lemma LengthLoaded(r: Reply, c: Config, input: seq<byte>)
    requires InValue(c, Value(LoadHeaderState1)) && c.fields.headerState == 2
    ensures var d := c.(place := Value(TestFlags2));
      InValue(d, Value(TestFlags2)) && HttpRun(r, c, input) == HttpRun(r, d, input)
  {
    Slide(r, c, input, c.(place := Value(TestFlags2)));
  }

  lemma FoldedLength(r: Reply, c: Config, input: seq<byte>)
    requires HttpReady(c) && c.place == Value(HeaderValueLws) && c.fields.headerState == 2
    requires c.fields.flags & F_CONTENT_LENGTH != 0 && |input| > 0 && IsBlank(input[0])
    ensures BadLength(HttpRun(r, c, input))
  {
    hide HttpRun, HttpReady;
    LineFolds(r, c, input);
    var d := c.(place := Value(LoadHeaderState1), pending := Some(Pending(ValueSpan, [])));
    LengthLoaded(r, d, input);
    SecondLength(r, d.(place := Value(TestFlags2)), input);
  }

  function HeaderEvents(h: Header): seq<Event> {
    [Span(FieldSpan, h.name)] + ValueEvents(StateOf(h.name), h.value, h.folds)
  }

  function HeaderEffect(f: Fields, h: Header): Fields {
    Effect(f, StateOf(h.name), h.value, h.folds)
  }

  predicate HeaderAccepted(f: Fields, h: Header) {
    IsName(h.name) && ValueAccepted(f, StateOf(h.name), h.value, h.folds)
  }

  /** The parser stopped because of a header. */
  predicate BadHeader(o: Outcome) {
    BadToken(o) || BadValue(o)
  }

  /** The parser behind the name and the colon. */
  function Colon(c: Config, h: Header): Config {
    Config(Value(HeaderValueDiscardWs), c.fields.(headerState := StateOf(h.name)), None, c.out + [Span(FieldSpan, h.name)])
  }

  lemma HeaderText2(h: Header, rest: seq<byte>)
    ensures HeaderText(h) + rest == h.name + ([COLON] + (ValueText(h) + rest))
  {
  }

  lemma StateSmall(name: seq<byte>)
    ensures StateOf(name) <= 4
  {
  }

  lemma EffectApart(f: Fields, n: nat, value: seq<byte>, folds: seq<seq<byte>>)
    ensures Effect(f.(headerState := n), n, value, folds) == Effect(f, n, value, folds)
    ensures ValueAccepted(f.(headerState := n), n, value, folds) <==> ValueAccepted(f, n, value, folds)
  {
  }

  /** From the start of a header to the start of the next, whatever its octets: exactly the headers that are accepted are
      reported, line by line, and have their effect; all others are errors. */
  lemma HeaderRead(r: Reply, c: Config, h: Header, rest: seq<byte>)
    requires HttpReady(c) && c.place == Field(HeaderFieldStart) && IsLine(h) && NewLine(rest)
    ensures var o := HttpRun(r, c, HeaderText(h) + rest);
      if HeaderAccepted(c.fields, h) then
        var d := Config(Field(HeaderFieldStart), HeaderEffect(c.fields, h), None, c.out + HeaderEvents(h));
        HttpReady(d) && o == HttpRun(r, d, rest)
      else BadHeader(o)
  {
    hide HttpRun, HttpReady;
    var n := StateOf(h.name);
    HeaderText2(h, rest);
    NameRead(r, c, h.name, ValueText(h) + rest);
    if IsName(h.name) {
      StateSmall(h.name);
      ValueRead(r, Colon(c, h), h, rest);
      EffectApart(c.fields, n, h.value, h.folds);
      Regroup(c.out, [Span(FieldSpan, h.name)], ValueEvents(n, h.value, h.folds));
    }
  }

  /** A Content-Length that is not accepted is an error that says so. */
  lemma HeaderRefused(r: Reply, c: Config, h: Header, rest: seq<byte>)
    requires HttpReady(c) && c.place == Field(HeaderFieldStart) && IsLine(h)
    requires IsName(h.name) && StateOf(h.name) == 2 && IsValue(h.value) && !HeaderAccepted(c.fields, h)
    ensures BadLength(HttpRun(r, c, HeaderText(h) + rest))
  {
    hide HttpRun, HttpReady;
    HeaderText2(h, rest);
    NameRead(r, c, h.name, ValueText(h) + rest);
    EffectApart(c.fields, 2, h.value, h.folds);
    ValueRefused(r, Colon(c, h), h, rest);
  }

  // ---------------------------------------------------------------- header sections

  predicate Indented(h: Header) {
    |h.name| > 0 && IsBlank(h.name[0])
  }

  /** Behind the first header a line that begins with a blank would continue the one before it. */
  predicate AreLines(hs: seq<Header>) {
    forall i {:trigger hs[i]} | 0 <= i < |hs| :: IsLine(hs[i]) && (i > 0 ==> !Indented(hs[i]))
  }

  /** All lines of a section, without the empty line at its end. */
  function SectionText(hs: seq<Header>): seq<byte> {
    if |hs| == 0 then [] else HeaderText(hs[0]) + SectionText(hs[1..])
  }

  function SectionEvents(hs: seq<Header>): seq<Event> {
    if |hs| == 0 then [] else HeaderEvents(hs[0]) + SectionEvents(hs[1..])
  }

  function SectionFields(f: Fields, hs: seq<Header>): Fields
    decreases |hs|
  {
    if |hs| == 0 then f else SectionFields(HeaderEffect(f, hs[0]), hs[1..])
  }

  predicate SectionAccepted(f: Fields, hs: seq<Header>)
    decreases |hs|
  {
    |hs| > 0 ==> HeaderAccepted(f, hs[0]) && SectionAccepted(HeaderEffect(f, hs[0]), hs[1..])
  }

  lemma SectionStart(hs: seq<Header>, rest: seq<byte>)
    requires AreLines(hs) && (|hs| > 0 ==> !Indented(hs[0])) && NewLine(rest)
    ensures NewLine(SectionText(hs) + rest)
  {
    if |hs| > 0 {
      var h := hs[0];
      assert IsLine(h);
      assert (SectionText(hs) + rest)[0] == HeaderText(h)[0] == (h.name + [COLON])[0];
    }
  }

  lemma SectionHead(hs: seq<Header>, rest: seq<byte>)
    requires |hs| > 0 && AreLines(hs) && NewLine(rest)
    ensures var tail := SectionText(hs[1..]) + rest;
      && SectionText(hs) + rest == HeaderText(hs[0]) + tail
      && NewLine(tail) && AreLines(hs[1..]) && IsLine(hs[0])
  {
    LinesTail(hs);
    Regroup(HeaderText(hs[0]), SectionText(hs[1..]), rest);
    SectionStart(hs[1..], rest);
  }

  lemma LinesTail(hs: seq<Header>)
    requires |hs| > 0 && AreLines(hs)
    ensures AreLines(hs[1..]) && IsLine(hs[0]) && (|hs| > 1 ==> !Indented(hs[1]))
  {
    var t := hs[1..];
    assert forall i {:trigger t[i]} | 0 <= i < |t| :: t[i] == hs[i + 1];
  }

  lemma OneHeader(f: Fields, h: Header)
    ensures SectionAccepted(f, [h]) <==> HeaderAccepted(f, h)
    ensures SectionFields(f, [h]) == HeaderEffect(f, h)
  {
    hide HeaderAccepted, HeaderEffect;
    assert [h][1..] == [];
  }

  /** The parser behind a header section. */
  function AfterSection(c: Config, hs: seq<Header>): Config {
    Config(Field(HeaderFieldStart), SectionFields(c.fields, hs), None, c.out + SectionEvents(hs))
  }

  lemma NoSection(c: Config, rest: seq<byte>)
    requires HttpReady(c) && c.place == Field(HeaderFieldStart)
    ensures AfterSection(c, []) == c && SectionText([]) + rest == rest
  {
    assert c.out + [] == c.out && c.pending.None?;
  }

  /** A header section, whatever its octets: exactly the sections that are accepted are reported, every header in order,
      and leave the fields as the headers say; all others are errors. */
  lemma {:induction false} SectionRead(r: Reply, c: Config, hs: seq<Header>, rest: seq<byte>)
    requires HttpReady(c) && c.place == Field(HeaderFieldStart) && AreLines(hs) && NewLine(rest)
    ensures var o := HttpRun(r, c, SectionText(hs) + rest);
      if SectionAccepted(c.fields, hs) then
        HttpReady(AfterSection(c, hs)) && o == HttpRun(r, AfterSection(c, hs), rest)
      else BadHeader(o)
    decreases |hs|
  {
    hide HttpRun, HttpReady;
    if |hs| == 0 {
      NoSection(c, rest);
    } else {
      var h, more := hs[0], hs[1..];
      SectionHead(hs, rest);
      HeaderRead(r, c, h, SectionText(more) + rest);
      if HeaderAccepted(c.fields, h) {
        var d := Config(Field(HeaderFieldStart), HeaderEffect(c.fields, h), None, c.out + HeaderEvents(h));
        SectionRead(r, d, more, rest);
        Regroup(c.out, HeaderEvents(h), SectionEvents(more));
      }
    }
  }

  /** The first header that is not accepted is a Content-Length. */
  predicate LengthRefused(f: Fields, hs: seq<Header>)
    decreases |hs|
  {
    |hs| > 0 &&
      if HeaderAccepted(f, hs[0]) then LengthRefused(HeaderEffect(f, hs[0]), hs[1..])
      else IsName(hs[0].name) && StateOf(hs[0].name) == 2 && IsValue(hs[0].value)
  }

  /** Then the error says so. */
  lemma {:induction false} SectionRefused(r: Reply, c: Config, hs: seq<Header>, rest: seq<byte>)
    requires HttpReady(c) && c.place == Field(HeaderFieldStart) && AreLines(hs) && LengthRefused(c.fields, hs)
    requires NewLine(rest)
    ensures BadLength(HttpRun(r, c, SectionText(hs) + rest))
    decreases |hs|
  {
    hide HttpRun, HttpReady;
    var h, more := hs[0], hs[1..];
    var tail := SectionText(more) + rest;
    SectionHead(hs, rest);
    if HeaderAccepted(c.fields, h) {
      HeaderRead(r, c, h, tail);
      var d := Config(Field(HeaderFieldStart), HeaderEffect(c.fields, h), None, c.out + HeaderEvents(h));
      SectionRefused(r, d, more, rest);
    } else {
      HeaderRefused(r, c, h, tail);
    }
  }

  // ---------------------------------------------------------------- what a section says

  /** The flags one header sets. */
  function HeaderFlags(h: Header): bv8 {
    ValueFlags(StateOf(h.name), h.value, h.folds)
  }

  /** The flags of a header of one line: a Connection header sets those of its elements, Content-Length and Upgrade
      headers their own, a Transfer-Encoding its own if it is the one word, and no other header any. */
  lemma SimpleFlags(name: seq<byte>, blanks: seq<byte>, value: seq<byte>)
    requires value != []
    ensures var n := StateOf(name);
      HeaderFlags(OneLine(name, blanks, value)) ==
        if n == 1 then ConnectionFlags(value) else if n == 2 then F_CONTENT_LENGTH
        else if n == 3 then (if IsWord(value, CHUNKED) then F_CHUNKED else 0) else if n == 4 then F_UPGRADE else 0
  {
    var n, all := StateOf(name), [value] + [];
    assert all[0] == value && all[1..] == [];
    assert LinesState(n, all) == LinesState(PartState(n, value), []) == PartState(n, value);
    assert LinesFlags(n, all) == PartFlags(n, value) | 0;
    OrNothing(PartFlags(n, value));
    OrNothing(FlagBits(PartState(n, value)));
    if n == 1 {
      ListSays(1, value);
    }
  }

  lemma {:induction false} FoldsSayNothing(n: nat, folds: seq<seq<byte>>)
    requires n == 0 || n >= 5
    ensures LinesState(n, folds) == n && LinesFlags(n, folds) == 0
    decreases |folds|
  {
    if |folds| > 0 {
      FoldsSayNothing(n, folds[1..]);
    }
  }

  /** The first line alone decides what a header other than Connection does; a length has no other. */
  lemma FirstLineDecides(h: Header)
    requires h.value != [] && StateOf(h.name) != 1 && (StateOf(h.name) == 2 ==> h.folds == [])
    ensures HeaderFlags(h) == HeaderFlags(OneLine(h.name, h.blanks, h.value))
  {
    hide StateOf, IsWord;
    StateSmall(h.name);
    var n, m := StateOf(h.name), PartState(StateOf(h.name), h.value);
    var all, one := [h.value] + h.folds, [h.value] + [];
    assert all[0] == one[0] == h.value && all[1..] == h.folds && one[1..] == [];
    if n != 2 {
      FoldsSayNothing(m, h.folds);
      FoldsSayNothing(m, []);
    }
  }

  lemma EitherBit(a: bv8, b: bv8, bit: bv8)
    ensures (a | b) & bit != 0 <==> a & bit != 0 || b & bit != 0
  {
  }

  /** Some header of the section sets one of the flags. */
  ghost predicate Sets(hs: seq<Header>, bits: bv8) {
    exists i {:trigger hs[i]} | 0 <= i < |hs| :: HeaderFlags(hs[i]) & bits != 0
  }

  lemma SetsHead(hs: seq<Header>, bits: bv8)
    requires |hs| > 0
    ensures Sets(hs, bits) <==> HeaderFlags(hs[0]) & bits != 0 || Sets(hs[1..], bits)
  {
    hide HeaderFlags;
    var t := hs[1..];
    assert forall i {:trigger t[i]} | 0 <= i < |t| :: t[i] == hs[i + 1];
    assert forall i {:trigger hs[i]} | 0 < i < |hs| :: hs[i] == t[i - 1];
  }

  /** A flag is set exactly when some header of the section sets it. */
  lemma {:induction false} SectionFlags(f: Fields, hs: seq<Header>, bits: bv8)
    ensures SectionFields(f, hs).flags & bits != 0 <==> f.flags & bits != 0 || Sets(hs, bits)
    decreases |hs|
  {
    if |hs| > 0 {
      EitherBit(f.flags, HeaderFlags(hs[0]), bits);
      SectionFlags(HeaderEffect(f, hs[0]), hs[1..], bits);
      SetsHead(hs, bits);
    }
  }

  /** Nothing but the flags, the length and the header state changes. */
  lemma {:induction false} SectionLeaves(f: Fields, hs: seq<Header>)
    ensures var g := SectionFields(f, hs);
      g == f.(flags := g.flags, contentLength := g.contentLength, headerState := g.headerState)
    ensures !Sets(hs, F_CONTENT_LENGTH) ==> SectionFields(f, hs).contentLength == f.contentLength
    decreases |hs|
  {
    if |hs| > 0 {
      SectionLeaves(HeaderEffect(f, hs[0]), hs[1..]);
      SetsHead(hs, F_CONTENT_LENGTH);
      LengthLeft(f, hs[0]);
    }
  }

  /** A header that does not set the flag of a length leaves the counter. */
  lemma LengthLeft(f: Fields, h: Header)
    ensures HeaderFlags(h) & F_CONTENT_LENGTH != 0 || HeaderEffect(f, h).contentLength == f.contentLength
  {
    hide StateOf, LinesFlags, LinesState, FlagBits, Settled, Length;
    if StateOf(h.name) == 2 && h.value != [] {
      LengthFlag(h);
    }
  }

  lemma LengthFlag(h: Header)
    requires StateOf(h.name) == 2 && h.value != []
    ensures HeaderFlags(h) & F_CONTENT_LENGTH != 0
  {
    var all := [h.value] + h.folds;
    assert all[0] == h.value;
    FlagKept(LinesFlags(2, all[1..]), FlagBits(LinesState(2, all)));
  }

  lemma FlagKept(a: bv8, b: bv8)
    ensures ((F_CONTENT_LENGTH | a) | b) & F_CONTENT_LENGTH != 0
  {
  }

  /** Headers do not make a message a trailer or take its body away. */
  lemma HeaderBits(h: Header)
    ensures HeaderFlags(h) & (F_TRAILING | F_SKIPBODY) == 0
  {
    if h.value != [] {
      LinesBits(StateOf(h.name), [h.value] + h.folds);
      StateBits(LinesState(StateOf(h.name), [h.value] + h.folds));
      NoBits(LinesFlags(StateOf(h.name), [h.value] + h.folds), FlagBits(LinesState(StateOf(h.name), [h.value] + h.folds)));
    }
  }

  lemma NoBits(a: bv8, b: bv8)
    requires a & (F_TRAILING | F_SKIPBODY) == 0 && b & (F_TRAILING | F_SKIPBODY) == 0
    ensures (a | b) & (F_TRAILING | F_SKIPBODY) == 0
  {
  }

  lemma StateBits(n: nat)
    ensures FlagBits(n) & (F_TRAILING | F_SKIPBODY) == 0
  {
  }

  lemma {:induction false} ListBits(n: nat, s: seq<byte>)
    ensures ListFlags(n, s) & (F_TRAILING | F_SKIPBODY) == 0
    decreases |s|
  {
    if HasComma(s) {
      var m := ElementState(n, s[..CommaAt(s)]);
      StateBits(m);
      ListBits(Settled(m), Behind(s));
      NoBits(FlagBits(m), ListFlags(Settled(m), Behind(s)));
    }
  }

  lemma {:induction false} LinesBits(n: nat, folds: seq<seq<byte>>)
    ensures LinesFlags(n, folds) & (F_TRAILING | F_SKIPBODY) == 0
    decreases |folds|
  {
    if |folds| > 0 {
      ListBits(1, folds[0]);
      LinesBits(PartState(n, folds[0]), folds[1..]);
      NoBits(PartFlags(n, folds[0]), LinesFlags(PartState(n, folds[0]), folds[1..]));
    }
  }

  lemma SectionBits(f: Fields, hs: seq<Header>)
    requires f.flags & (F_TRAILING | F_SKIPBODY) == 0
    ensures SectionFields(f, hs).flags & (F_TRAILING | F_SKIPBODY) == 0
  {
    SectionFlags(f, hs, F_TRAILING | F_SKIPBODY);
    forall i {:trigger hs[i]} | 0 <= i < |hs| ensures HeaderFlags(hs[i]) & (F_TRAILING | F_SKIPBODY) == 0 {
      HeaderBits(hs[i]);
    }
  }
}
