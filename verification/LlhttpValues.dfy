/** Header values: where a value ends, and the values that say how long a body is or that ask for an upgrade. */
module LlhttpValues {
  import opened Bytes
  import opened LlhttpTypes
  import opened LlhttpTables
  import opened Llparse
  import opened LlparseBulk
  import opened LlhttpProgram
  import opened LlhttpNumbers
  import opened LlhttpChunks
  import opened LlhttpNames

  predicate IsBlank(c: byte) {
    c == SP || c == TAB
  }

  predicate Blanks(s: seq<byte>) {
    forall i {:trigger s[i]} | 0 <= i < |s| :: IsBlank(s[i])
  }

  /** The octets of a value. */
  predicate IsValue(s: seq<byte>) {
    forall i {:trigger s[i]} | 0 <= i < |s| :: IsValueOctet(s[i])
  }

  /** What follows a header line does not continue it. */
  predicate NewLine(rest: seq<byte>) {
    |rest| > 0 && !IsBlank(rest[0])
  }

  /** Octets of one line. */
  predicate NoLf(s: seq<byte>) {
    LF !in s
  }

  lemma ValueTail(s: seq<byte>, k: nat)
    requires k <= |s|
    ensures IsValue(s) ==> IsValue(s[k..])
    ensures NoLf(s) ==> NoLf(s[k..])
  {
    assert forall i {:trigger s[k..][i]} | 0 <= i < |s| - k :: s[k..][i] == s[k + i];
  }

  /** The octets of a value are those of section 3.2 of RFC 7230 (visible ones, those that are not ASCII, space and tab),
      but for 0xff. */
  lemma ValueOctets(c: byte)
    ensures IsValueOctet(c) <==> 0x21 <= c <= 0x7e || 0x80 <= c <= 0xfe || c in [SP, TAB]
  {
  }

  lemma ValueHead(s: seq<byte>)
    requires |s| > 0
    ensures IsValue(s) <==> IsValueOctet(s[0]) && IsValue(s[1..])
  {
    assert forall i {:trigger s[1..][i]} | 0 <= i < |s| - 1 :: s[1..][i] == s[i + 1];
  }

  // ---------------------------------------------------------------- the end of a line

  /** In the middle of a value. */
  predicate InValue(c: Config, l: Label) {
    && HttpReady(c) && c.place == l && c.fields.index == 0 && c.pending.Some? && c.pending.value.kind == ValueSpan
  }

  /** Behind a line of a value that began with `c` and went on with `left`; `x` is what is reported on top of it, and the
      flag of what is remembered in the fields `f` is not yet set. */
  function Parted(c: Config, left: seq<byte>, f: Fields, x: seq<byte>): Config
    requires c.pending.Some?
  {
    Config(Value(HeaderValueLws), f, None, c.out + [Span(ValueSpan, c.pending.value.octets + (left + x))])
  }

  /** The parser stopped because of a Content-Length: a second one, or one that is no length. */
  predicate BadLength(o: Outcome) {
    || (o.Stopped? && o.code == 4 && o.reason == DuplicateContentLength)
    || (o.Stopped? && o.code == 11 && (o.reason == ContentLengthOverflow || o.reason == InvalidCharacterInContentLength))
  }

  /** The parser stopped because of a value. */
  predicate BadValue(o: Outcome) {
    || BadLength(o)
    || (o.Stopped? && o.code == 10 && o.reason == InvalidHeaderValueChar)
    || (o.Stopped? && o.code == 3 && o.reason == MissingExpectedLfAfterHeaderValue)
  }

  /** The parser reads the rest of a line of a value: the value's span ends, and the fields are `g`; or it stops. */
  ghost predicate PartEnds(r: Reply, c: Config, left: seq<byte>, rest: seq<byte>, g: Option<Fields>, x: seq<byte>)
    requires c.pending.Some?
  {
    var o := HttpRun(r, c, left + (CRLF + rest));
    match g
    case Some(f) => HttpReady(Parted(c, left, f, x)) && o == HttpRun(r, Parted(c, left, f, x), rest)
    case None => BadValue(o)
  }

  /** The fields behind a line, if it is accepted. */
  function If(accepted: bool, f: Fields): Option<Fields> {
    if accepted then Some(f) else None
  }

  lemma LineFeed(r: Reply, c: Config, rest: seq<byte>)
    requires HttpReady(c) && c.place == Value(HeaderValueAlmostDone)
    ensures var d := c.(place := Value(HeaderValueLws));
      HttpReady(d) && HttpRun(r, c, [LF] + rest) == HttpRun(r, d, rest)
  {
    assert ([LF] + rest)[1..] == rest && c.pending.None?;
    Take(r, c, [LF] + rest, c.(place := Value(HeaderValueLws)));
  }

  lemma PartDone(r: Reply, c: Config, rest: seq<byte>)
    requires InValue(c, Value(HeaderValueOtherwise))
    ensures PartEnds(r, c, [], rest, Some(c.fields), [])
  {
    var input := [] + (CRLF + rest);
    assert input[0] == CR && input[1..] == [LF] + rest && c.pending.value.octets + ([] + []) == c.pending.value.octets;
    Take(r, c, input, Close(c, ValueSpan, Value(HeaderValueAlmostDone)));
    LineFeed(r, Close(c, ValueSpan, Value(HeaderValueAlmostDone)), rest);
  }

  /** A CR that is not followed by a line feed. */
  lemma LoneCr(r: Reply, c: Config, input: seq<byte>)
    requires InValue(c, Value(HeaderValueOtherwise)) && |input| >= 2 && input[0] == CR && input[1] != LF
    ensures BadValue(HttpRun(r, c, input))
  {
    var d := Close(c, ValueSpan, Value(HeaderValueAlmostDone));
    Take(r, c, input, d);
    var e := d.(place := Fail(3, MissingExpectedLfAfterHeaderValue));
    Slide(r, d, input[1..], e);
    Halted(r, e, input[1..]);
  }

  /** An octet that is none of a value. */
  lemma OffValue(r: Reply, c: Config, input: seq<byte>)
    requires InValue(c, Value(HeaderValueOtherwise)) && |input| > 0 && input[0] != CR && input[0] != LF
    ensures BadValue(HttpRun(r, c, input))
  {
    var e := c.(place := Fail(10, InvalidHeaderValueChar));
    Slide(r, c, input, e);
    Halted(r, e, input);
  }

  /** Where only the end of the line can follow. */
  lemma Otherwise(r: Reply, c: Config, left: seq<byte>, rest: seq<byte>)
    requires InValue(c, Value(HeaderValueOtherwise)) && NoLf(left)
    ensures PartEnds(r, c, left, rest, If(left == [], c.fields), [])
  {
    hide HttpRun, HttpReady;
    var input := left + (CRLF + rest);
    if left == [] {
      PartDone(r, c, rest);
    } else {
      assert input[0] == left[0] && left[0] in left;
      assert input[1] == if |left| > 1 then left[1] else CR;
      assert |left| > 1 ==> left[1] in left;
      if left[0] == CR {
        LoneCr(r, c, input);
      } else {
        OffValue(r, c, input);
      }
    }
  }

  // ---------------------------------------------------------------- one block more

  /** From `c` to `d` the parser took `w`. */
  predicate TookValue(c: Config, d: Config, w: seq<byte>) {
    c.pending.Some? && d.pending == Extend(c.pending, w) && d.out == c.out
  }

  lemma Reported(p: seq<byte>, w: seq<byte>, left: seq<byte>, x: seq<byte>)
    ensures p + w + (left + x) == p + (w + left + x)
  {
  }

  lemma PartLater(r: Reply, c: Config, d: Config, w: seq<byte>, left: seq<byte>, rest: seq<byte>, g: Option<Fields>,
                  x: seq<byte>)
    requires TookValue(c, d, w)
    requires HttpRun(r, c, w + (left + (CRLF + rest))) == HttpRun(r, d, left + (CRLF + rest))
    requires PartEnds(r, d, left, rest, g, x)
    ensures PartEnds(r, c, w + left, rest, g, x)
  {
    hide HttpRun, HttpReady;
    Regroup(w, left, CRLF + rest);
    Reported(c.pending.value.octets, w, left, x);
  }

  /** A block that takes one octet of a value. */
  lemma ValueOne(r: Reply, c: Config, l: Label, next: Label, x: byte, tail: seq<byte>)
    requires InValue(c, l) && NodeOf(l).Peek? && Dispatch(l, x) == Advance(next) && SpanOf(next) == ValueSpan
    ensures var d := c.(place := next, pending := Extend(c.pending, [x]));
      InValue(d, next) && HttpRun(r, c, [x] + tail) == HttpRun(r, d, tail)
  {
    assert ([x] + tail)[1..] == tail;
    Take(r, c, [x] + tail, c.(place := next, pending := Extend(c.pending, [x])));
  }

  lemma PartOn(r: Reply, c: Config, l: Label, next: Label, left: seq<byte>, rest: seq<byte>, g: Option<Fields>,
               x: seq<byte>)
    requires InValue(c, l) && NodeOf(l).Peek? && |left| > 0
    requires Dispatch(l, left[0]) == Advance(next) && SpanOf(next) == ValueSpan
    requires var d := c.(place := next, pending := Extend(c.pending, [left[0]]));
      InValue(d, next) ==> PartEnds(r, d, left[1..], rest, g, x)
    ensures PartEnds(r, c, left, rest, g, x)
  {
    hide HttpRun, HttpReady;
    ValueOne(r, c, l, next, left[0], left[1..] + (CRLF + rest));
    PartLater(r, c, c.(place := next, pending := Extend(c.pending, [left[0]])), [left[0]], left[1..], rest, g, x);
    assert left == [left[0]] + left[1..];
  }

  /** A block that looks at the octet ahead and leaves it to the next. */
  lemma PartAside(r: Reply, c: Config, l: Label, next: Label, left: seq<byte>, rest: seq<byte>, g: Option<Fields>,
                  x: seq<byte>)
    requires InValue(c, l) && NodeOf(l).Peek? && Dispatch(l, (left + CRLF)[0]) == Stay(next) && SpanOf(next) == ValueSpan
    requires InValue(c.(place := next), next) ==> PartEnds(r, c.(place := next), left, rest, g, x)
    ensures PartEnds(r, c, left, rest, g, x)
  {
    assert (left + (CRLF + rest))[0] == (left + CRLF)[0];
    Slide(r, c, left + (CRLF + rest), c.(place := next));
  }

  /** A block that looks at no octet. */
  lemma PartVia(r: Reply, c: Config, l: Label, next: Label, left: seq<byte>, rest: seq<byte>, g: Option<Fields>,
                x: seq<byte>)
    requires InValue(c, l) && NodeOf(l).Invoke? && Invoked(l, c.fields).1 == next && SpanOf(next) == ValueSpan
    requires var d := c.(place := next, fields := Invoked(l, c.fields).0);
      InValue(d, next) ==> PartEnds(r, d, left, rest, g, x)
    ensures PartEnds(r, c, left, rest, g, x)
  {
    LlhttpWellFormed();
    Slide(r, c, left + (CRLF + rest), c.(place := next, fields := Invoked(l, c.fields).0));
  }

  // ---------------------------------------------------------------- plain values

  lemma {:induction false} Plain(r: Reply, c: Config, left: seq<byte>, rest: seq<byte>)
    requires InValue(c, Value(HeaderValue)) && NoLf(left)
    ensures PartEnds(r, c, left, rest, If(IsValue(left), c.fields), [])
    decreases |left|
  {
    hide HttpRun, HttpReady;
    var here, off, g := Value(HeaderValue), Value(HeaderValueOtherwise), If(IsValue(left), c.fields);
    if |left| > 0 && IsValueOctet(left[0]) {
      ValueTail(left, 1);
      ValueHead(left);
      var d := c.(pending := Extend(c.pending, [left[0]]));
      if InValue(d, here) {
        Plain(r, d, left[1..], rest);
      }
      PartOn(r, c, here, here, left, rest, g, []);
    } else {
      LineOctet(left);
      if InValue(c.(place := off), off) {
        Otherwise(r, c.(place := off), left, rest);
      }
      PartAside(r, c, here, off, left, rest, g, []);
    }
  }

  /** What follows the octets of a value, if nothing else does: the CR at the end of the line. */
  lemma LineOctet(left: seq<byte>)
    ensures (left + CRLF)[0] == if left == [] then CR else left[0]
    ensures left != [] && !IsValueOctet(left[0]) ==> !IsValue(left)
  {
  }

  // ---------------------------------------------------------------- Content-Length

  /** How many digits a value begins with. */
  function Digits(s: seq<byte>): (k: nat)
    ensures k <= |s| && IsNumeral(Dec, s[..k]) && (k < |s| ==> Decimal(s[k]).None?)
  {
    if |s| == 0 || Decimal(s[0]).None? then 0
    else
      var k := Digits(s[1..]);
      assert forall i {:trigger s[..k + 1][i]} | 0 < i < k + 1 :: s[..k + 1][i] == s[1..][..k][i - 1];
      k + 1
  }

  /** The counter after the digits of a value. */
  function Length(n: nat, s: seq<byte>): nat {
    Counted(Dec, n, s[..Digits(s)])
  }

  /** The digits are those from 0 to 9 that come first, and they go behind what was in the counter. */
  lemma LengthIs(n: nat, s: seq<byte>)
    ensures var k := Digits(s);
      && (forall i | 0 <= i < k :: 0x30 <= s[i] <= 0x39) && (k < |s| ==> !(0x30 <= s[k] <= 0x39))
      && Length(n, s) == n * Scale(Dec, k) + Number(Dec, s[..k])
  {
    var k := Digits(s);
    forall i | 0 <= i < k ensures 0x30 <= s[i] <= 0x39 {
      assert s[..k][i] == s[i];
      DigitIs(Dec, s[i]);
    }
    if k < |s| {
      DigitIs(Dec, s[k]);
    }
    CountedOnTop(Dec, n, s[..k]);
  }

  /** A length: digits that fit, and perhaps spaces behind them. */
  predicate IsLength(n: nat, s: seq<byte>) {
    Spaces(s[Digits(s)..]) && Length(n, s) <= UINT64_MAX
  }

  /** Spaces at the end of a length, or behind "chunked"; anything else, and the value says nothing. */
  lemma {:induction false} RightSpaces(r: Reply, c: Config, left: seq<byte>, rest: seq<byte>)
    requires InValue(c, Value(HeaderValueDiscardRws)) && NoLf(left)
    ensures PartEnds(r, c, left, rest, If(IsValue(left), if Spaces(left) then c.fields else c.fields.(headerState := 0)), [])
    decreases |left|
  {
    hide HttpRun, HttpReady, PartEnds, IsValue;
    var here, off := Value(HeaderValueDiscardRws), Value(UpdateHeaderState7);
    var g := If(IsValue(left), if Spaces(left) then c.fields else c.fields.(headerState := 0));
    if |left| > 0 && left[0] == SP {
      SpacesTail(left);
      ValueTail(left, 1);
      ValueHead(left);
      var d := c.(pending := Extend(c.pending, [left[0]]));
      if InValue(d, here) {
        RightSpaces(r, d, left[1..], rest);
      }
      PartOn(r, c, here, here, left, rest, g, []);
    } else if left == [] || left[0] == CR {
      RightOver(r, c, left, rest);
    } else {
      assert left[0] in left;
      if InValue(c.(place := off), off) {
        Nothing(r, c.(place := off), left, rest);
      }
      PartAside(r, c, here, off, left, rest, g, []);
    }
  }

  lemma RightOver(r: Reply, c: Config, left: seq<byte>, rest: seq<byte>)
    requires InValue(c, Value(HeaderValueDiscardRws)) && NoLf(left) && (left == [] || left[0] == CR)
    ensures PartEnds(r, c, left, rest, If(IsValue(left), if Spaces(left) then c.fields else c.fields.(headerState := 0)), [])
  {
    hide HttpRun, HttpReady, PartEnds;
    var end := Value(HeaderValueOtherwise);
    LineOctet(left);
    if InValue(c.(place := end), end) {
      Otherwise(r, c.(place := end), left, rest);
    }
    PartAside(r, c, Value(HeaderValueDiscardRws), end, left, rest,
              If(IsValue(left), if Spaces(left) then c.fields else c.fields.(headerState := 0)), []);
  }

  /** A value that says nothing after all. */
  lemma Nothing(r: Reply, c: Config, left: seq<byte>, rest: seq<byte>)
    requires InValue(c, Value(UpdateHeaderState7)) && NoLf(left)
    ensures PartEnds(r, c, left, rest, If(IsValue(left), c.fields.(headerState := 0)), [])
  {
    hide HttpRun, HttpReady;
    var d := c.(place := Value(HeaderValue), fields := c.fields.(headerState := 0));
    if InValue(d, Value(HeaderValue)) {
      Plain(r, d, left, rest);
    }
    PartVia(r, c, Value(UpdateHeaderState7), Value(HeaderValue), left, rest, If(IsValue(left), d.fields), []);
  }

  /** The end of a Content-Length. */
  lemma LengthSet(r: Reply, c: Config, left: seq<byte>, rest: seq<byte>)
    requires InValue(c, Value(OrFlags15)) && NoLf(left) && (left == [] || left[0] == CR)
    ensures PartEnds(r, c, left, rest, If(left == [], c.fields.(flags := c.fields.flags | F_CONTENT_LENGTH)), [])
  {
    hide HttpRun, HttpReady;
    var next := Value(HeaderValueDiscardRws);
    var d := c.(place := next, fields := c.fields.(flags := c.fields.flags | F_CONTENT_LENGTH));
    if InValue(d, next) {
      RightSpaces(r, d, left, rest);
    }
    LineOctet(left);
    PartVia(r, c, Value(OrFlags15), next, left, rest, If(left == [], d.fields), []);
  }

  /** An octet that is none of a length. */
  lemma JunkInLength(r: Reply, c: Config, input: seq<byte>)
    requires InValue(c, Value(HeaderValueContentLengthWs))
    requires |input| > 0 && input[0] != SP && input[0] != CR && input[0] != LF
    ensures BadLength(HttpRun(r, c, input))
  {
    var d := c.(place := Value(SpanEndHeaderValue4));
    Slide(r, c, input, d);
    var e := Close(d, ValueSpan, Fail(11, InvalidCharacterInContentLength));
    Slide(r, d, input, e);
    Halted(r, e, input);
  }

  lemma {:induction false} LengthSpaces(r: Reply, c: Config, left: seq<byte>, rest: seq<byte>)
    requires InValue(c, Value(HeaderValueContentLengthWs)) && NoLf(left)
    ensures PartEnds(r, c, left, rest, If(Spaces(left), c.fields.(flags := c.fields.flags | F_CONTENT_LENGTH)), [])
    decreases |left|
  {
    hide HttpRun, HttpReady, PartEnds;
    var here := Value(HeaderValueContentLengthWs);
    if left != [] && left[0] == SP {
      SpacesTail(left);
      ValueTail(left, 1);
      var d := c.(pending := Extend(c.pending, [left[0]]));
      if InValue(d, here) {
        LengthSpaces(r, d, left[1..], rest);
      }
      var g := If(Spaces(left), c.fields.(flags := c.fields.flags | F_CONTENT_LENGTH));
      PartOn(r, c, here, here, left, rest, g, []);
    } else if left == [] || left[0] == CR {
      LengthOver(r, c, left, rest);
    } else {
      LengthJunk(r, c, left, rest);
    }
  }

  lemma LengthOver(r: Reply, c: Config, left: seq<byte>, rest: seq<byte>)
    requires InValue(c, Value(HeaderValueContentLengthWs)) && NoLf(left) && (left == [] || left[0] == CR)
    ensures PartEnds(r, c, left, rest, If(Spaces(left), c.fields.(flags := c.fields.flags | F_CONTENT_LENGTH)), [])
  {
    hide HttpRun, HttpReady, PartEnds;
    var mark := Value(OrFlags15);
    if left != [] {
      SpacesTail(left);
    }
    LineOctet(left);
    if InValue(c.(place := mark), mark) {
      LengthSet(r, c.(place := mark), left, rest);
    }
    PartAside(r, c, Value(HeaderValueContentLengthWs), mark, left, rest,
              If(Spaces(left), c.fields.(flags := c.fields.flags | F_CONTENT_LENGTH)), []);
  }

  lemma LengthJunk(r: Reply, c: Config, left: seq<byte>, rest: seq<byte>)
    requires InValue(c, Value(HeaderValueContentLengthWs)) && NoLf(left)
    requires left != [] && left[0] != SP && left[0] != CR
    ensures PartEnds(r, c, left, rest, If(Spaces(left), c.fields.(flags := c.fields.flags | F_CONTENT_LENGTH)), [])
  {
    hide HttpRun, HttpReady;
    SpacesTail(left);
    assert left[0] in left && (left + (CRLF + rest))[0] == left[0];
    JunkInLength(r, c, left + (CRLF + rest));
  }

  /** Something else than spaces behind a length. */
  lemma {:induction false} JunkBehindLength(r: Reply, c: Config, left: seq<byte>, rest: seq<byte>)
    requires InValue(c, Value(HeaderValueContentLengthWs)) && IsValue(left) && !Spaces(left)
    ensures BadLength(HttpRun(r, c, left + (CRLF + rest)))
    decreases |left|
  {
    hide HttpRun, HttpReady;
    var here, tail := Value(HeaderValueContentLengthWs), left[1..] + (CRLF + rest);
    assert left + (CRLF + rest) == [left[0]] + tail;
    ValueHead(left);
    if left[0] == SP {
      SpacesTail(left);
      ValueOne(r, c, here, here, left[0], tail);
      JunkBehindLength(r, c.(pending := Extend(c.pending, [left[0]])), left[1..], rest);
    } else {
      JunkInLength(r, c, left + (CRLF + rest));
    }
  }

  /** The digits of a length. */
  lemma LengthDigits(r: Reply, c: Config, w: seq<byte>, tail: seq<byte>)
    requires InValue(c, Value(HeaderValueContentLength)) && IsNumeral(Dec, w)
    requires Counted(Dec, c.fields.contentLength, w) <= UINT64_MAX
    ensures var f := c.fields.(contentLength := Counted(Dec, c.fields.contentLength, w));
      var d := c.(fields := f, pending := Extend(c.pending, w));
      InValue(d, Value(HeaderValueContentLength)) && HttpRun(r, c, w + tail) == HttpRun(r, d, tail)
  {
    LlhttpCounts(ContentLengths, r);
    DigitsFit(LLHTTP, ContentLengths, r, c, w, tail);
  }

  lemma LengthEnds(r: Reply, c: Config, input: seq<byte>)
    requires InValue(c, Value(HeaderValueContentLength)) && |input| > 0 && Decimal(input[0]).None?
    ensures var d := c.(place := Value(HeaderValueContentLengthWs));
      InValue(d, Value(HeaderValueContentLengthWs)) && HttpRun(r, c, input) == HttpRun(r, d, input)
  {
    Slide(r, c, input, c.(place := Value(HeaderValueContentLengthWs)));
  }

  function WithLength(f: Fields, value: seq<byte>): Fields {
    f.(contentLength := Length(f.contentLength, value), flags := f.flags | F_CONTENT_LENGTH)
  }

  /** From the digits of a length that fits to what follows them. */
  lemma BehindDigits(r: Reply, c: Config, value: seq<byte>, rest: seq<byte>)
    requires InValue(c, Value(HeaderValueContentLength)) && Length(c.fields.contentLength, value) <= UINT64_MAX
    ensures var w, left := value[..Digits(value)], value[Digits(value)..];
      var f := c.fields.(contentLength := Length(c.fields.contentLength, value));
      var d := c.(place := Value(HeaderValueContentLengthWs), fields := f, pending := Extend(c.pending, w));
      && InValue(d, Value(HeaderValueContentLengthWs))
      && HttpRun(r, c, w + (left + (CRLF + rest))) == HttpRun(r, d, left + (CRLF + rest))
  {
    hide HttpRun, HttpReady;
    var w, left := value[..Digits(value)], value[Digits(value)..];
    LengthDigits(r, c, w, left + (CRLF + rest));
    var f := c.fields.(contentLength := Length(c.fields.contentLength, value));
    assert (left + (CRLF + rest))[0] == if left == [] then CR else left[0];
    LengthEnds(r, c.(fields := f, pending := Extend(c.pending, w)), left + (CRLF + rest));
  }

  /** A length: accepted exactly if it is one and fits, and otherwise an error. */
  lemma LengthRest(r: Reply, c: Config, value: seq<byte>, rest: seq<byte>)
    requires InValue(c, Value(HeaderValueContentLength)) && NoLf(value)
    ensures PartEnds(r, c, value, rest, If(IsLength(c.fields.contentLength, value), WithLength(c.fields, value)), [])
  {
    hide HttpRun, HttpReady;
    var k := Digits(value);
    var w, left := value[..k], value[k..];
    assert value == w + left && value + (CRLF + rest) == w + (left + (CRLF + rest));
    ValueTail(value, k);
    if Length(c.fields.contentLength, value) > UINT64_MAX {
      LengthTooLarge(r, c, w, left + (CRLF + rest));
    } else {
      BehindDigits(r, c, value, rest);
      var f := c.fields.(contentLength := Length(c.fields.contentLength, value));
      var d := c.(place := Value(HeaderValueContentLengthWs), fields := f, pending := Extend(c.pending, w));
      LengthSpaces(r, d, left, rest);
      PartLater(r, c, d, w, left, rest, If(Spaces(left), WithLength(c.fields, value)), []);
    }
  }

  /** Octets of a value that are no length, or one that does not fit. */
  lemma NotALength(r: Reply, c: Config, value: seq<byte>, rest: seq<byte>)
    requires InValue(c, Value(HeaderValueContentLength)) && IsValue(value) && !IsLength(c.fields.contentLength, value)
    ensures BadLength(HttpRun(r, c, value + (CRLF + rest)))
  {
    hide HttpRun, HttpReady;
    var k := Digits(value);
    var w, left := value[..k], value[k..];
    assert value + (CRLF + rest) == w + (left + (CRLF + rest));
    ValueTail(value, k);
    if Length(c.fields.contentLength, value) > UINT64_MAX {
      LengthTooLarge(r, c, w, left + (CRLF + rest));
    } else {
      BehindDigits(r, c, value, rest);
      var f := c.fields.(contentLength := Length(c.fields.contentLength, value));
      var d := c.(place := Value(HeaderValueContentLengthWs), fields := f, pending := Extend(c.pending, w));
      JunkBehindLength(r, d, left, rest);
    }
  }

  lemma LengthTooLarge(r: Reply, c: Config, w: seq<byte>, tail: seq<byte>)
    requires InValue(c, Value(HeaderValueContentLength)) && IsNumeral(Dec, w)
    requires Counted(Dec, c.fields.contentLength, w) > UINT64_MAX
    ensures BadLength(HttpRun(r, c, w + tail))
  {
    LlhttpCounts(ContentLengths, r);
    DigitsPass(LLHTTP, ContentLengths, r, c, w, tail);
  }

  /** The first Content-Length of a message, and a length. */
  predicate FirstLength(f: Fields, value: seq<byte>) {
    f.flags & F_CONTENT_LENGTH == 0 && IsLength(f.contentLength, value)
  }

  lemma OneBit(flags: bv8)
    ensures flags & F_CONTENT_LENGTH != 0 <==> flags & F_CONTENT_LENGTH == F_CONTENT_LENGTH
  {
  }

  lemma SecondLength(r: Reply, c: Config, input: seq<byte>)
    requires InValue(c, Value(TestFlags2)) && c.fields.flags & F_CONTENT_LENGTH != 0
    ensures BadLength(HttpRun(r, c, input))
  {
    OneBit(c.fields.flags);
    var d := c.(place := Fail(4, DuplicateContentLength));
    Slide(r, c, input, d);
    Halted(r, d, input);
  }

  lemma FirstBegins(r: Reply, c: Config, input: seq<byte>)
    requires InValue(c, Value(TestFlags2)) && c.fields.flags & F_CONTENT_LENGTH == 0
    ensures var d := c.(place := Value(HeaderValueContentLength));
      InValue(d, Value(HeaderValueContentLength)) && HttpRun(r, c, input) == HttpRun(r, d, input)
  {
    OneBit(c.fields.flags);
    Slide(r, c, input, c.(place := Value(HeaderValueContentLength)));
  }

  /** A Content-Length is accepted exactly if it is the first of its message and a length. */
  lemma Sized(r: Reply, c: Config, value: seq<byte>, rest: seq<byte>)
    requires InValue(c, Value(TestFlags2)) && NoLf(value)
    ensures PartEnds(r, c, value, rest, If(FirstLength(c.fields, value), WithLength(c.fields, value)), [])
  {
    hide HttpRun, HttpReady;
    if c.fields.flags & F_CONTENT_LENGTH != 0 {
      SecondLength(r, c, value + (CRLF + rest));
    } else {
      FirstBegins(r, c, value + (CRLF + rest));
      LengthRest(r, c.(place := Value(HeaderValueContentLength)), value, rest);
    }
  }

  /** Otherwise the error says so. */
  lemma NotSized(r: Reply, c: Config, value: seq<byte>, rest: seq<byte>)
    requires InValue(c, Value(TestFlags2)) && IsValue(value) && !FirstLength(c.fields, value)
    ensures BadLength(HttpRun(r, c, value + (CRLF + rest)))
  {
    hide HttpRun, HttpReady;
    if c.fields.flags & F_CONTENT_LENGTH != 0 {
      SecondLength(r, c, value + (CRLF + rest));
    } else {
      FirstBegins(r, c, value + (CRLF + rest));
      NotALength(r, c.(place := Value(HeaderValueContentLength)), value, rest);
    }
  }

  // ---------------------------------------------------------------- Transfer-Encoding, Upgrade

  // chunked
  const CHUNKED: seq<byte> := [0x63, 0x68, 0x75, 0x6e, 0x6b, 0x65, 0x64]
  const HUNKED: seq<byte> := [0x68, 0x75, 0x6e, 0x6b, 0x65, 0x64]

  /** The header state behind a transfer coding. */
  function ChunkedMark(f: Fields, chunked: bool): Fields {
    f.(headerState := if chunked then 8 else 0)
  }

  lemma HunkedFolds(w: seq<byte>)
    requires |w| == |HUNKED| && BeginsWith(w, HUNKED)
    ensures Spells(HUNKED, true, w)
  {
    forall j {:trigger w[j]} | 0 <= j < |w| ensures Fold(w[j], true) == HUNKED[j] {
      FoldIsAsWord(w[j], HUNKED[j]);
    }
  }

  lemma HunkedMatched(r: Reply, c: Config, w: seq<byte>, tail: seq<byte>)
    requires InValue(c, Value(HeaderValueTeChunked1)) && |w| == |HUNKED| && BeginsWith(w, HUNKED)
    ensures var d := c.(place := Value(UpdateHeaderState8), pending := Extend(c.pending, w));
      InValue(d, Value(UpdateHeaderState8)) && HttpRun(r, c, w + tail) == HttpRun(r, d, tail)
  {
    hide Spells, BeginsWith;
    LlhttpWellFormed();
    HunkedFolds(w);
    assert LLHTTP.node(c.place) == ValueNode(HeaderValueTeChunked1) && LLHTTP.word(6) == HUNKED;
    MatchHit(LLHTTP, r, c, w, tail);
  }

  lemma HunkedUnmatched(r: Reply, c: Config, w: seq<byte>, tail: seq<byte>)
    requires InValue(c, Value(HeaderValueTeChunked1)) && |tail| > 0
    requires MatchesFrom(HUNKED, true, 0, w) && Fold(tail[0], true) != HUNKED[|w|]
    ensures var d := c.(place := Value(UpdateHeaderState7), pending := Extend(c.pending, w));
      InValue(d, Value(UpdateHeaderState7)) && HttpRun(r, c, w + tail) == HttpRun(r, d, tail)
  {
    hide MatchesFrom, Fold;
    LlhttpWellFormed();
    assert LLHTTP.node(c.place) == ValueNode(HeaderValueTeChunked1) && LLHTTP.word(6) == HUNKED;
    MatchMiss(LLHTTP, r, c, w, tail);
  }

  lemma HunkedOn(r: Reply, c: Config, u: seq<byte>, rest: seq<byte>)
    requires InValue(c, Value(UpdateHeaderState8)) && NoLf(u)
    ensures PartEnds(r, c, u, rest, If(IsValue(u), ChunkedMark(c.fields, Spaces(u))), [])
  {
    hide HttpRun, HttpReady;
    var next := Value(HeaderValueDiscardRws);
    var d := c.(place := next, fields := c.fields.(headerState := 8));
    if InValue(d, next) {
      RightSpaces(r, d, u, rest);
    }
    PartVia(r, c, Value(UpdateHeaderState8), next, u, rest, If(IsValue(u), ChunkedMark(c.fields, Spaces(u))), []);
  }

  /** The octets of a word without a hyphen are octets of a value. */
  lemma WordIsValue(w: seq<byte>, word: seq<byte>)
    requires IsWordText(word) && NoHyphen(word) && |w| <= |word| && BeginsWith(w, word[..|w|])
    ensures IsValue(w)
  {
    forall i {:trigger w[i]} | 0 <= i < |w| ensures IsValueOctet(w[i]) {
      assert AsWord(w[i]) == word[..|w|][i] == word[i];
      assert IsWordOctet(word[i]) && word[i] != HYPHEN;
    }
  }

  lemma ValueSplit(w: seq<byte>, u: seq<byte>)
    requires IsValue(w)
    ensures IsValue(w + u) <==> IsValue(u)
  {
    var s := w + u;
    assert forall i {:trigger s[i]} | 0 <= i < |s| :: s[i] == if i < |w| then w[i] else u[i - |w|];
    assert forall i {:trigger u[i]} | 0 <= i < |u| :: u[i] == s[|w| + i];
  }

  lemma Hunked(r: Reply, c: Config, left: seq<byte>, rest: seq<byte>)
    requires InValue(c, Value(HeaderValueTeChunked1)) && NoLf(left) && BeginsWith(left, HUNKED)
    ensures PartEnds(r, c, left, rest, If(IsValue(left), ChunkedMark(c.fields, IsWord(left, HUNKED))), [])
  {
    hide HttpRun, HttpReady;
    var w, u := left[..6], left[6..];
    assert left == w + u && HUNKED[..6] == HUNKED;
    ValueTail(left, 6);
    WordIsValue(w, HUNKED);
    ValueSplit(w, u);
    HunkedMatched(r, c, w, u + (CRLF + rest));
    var d := c.(place := Value(UpdateHeaderState8), pending := Extend(c.pending, w));
    HunkedOn(r, d, u, rest);
    PartLater(r, c, d, w, u, rest, If(IsValue(u), ChunkedMark(c.fields, Spaces(u))), []);
  }

  lemma HunkedText()
    ensures IsWordText(HUNKED) && NoHyphen(HUNKED)
  {
  }

  lemma AgreedPart(s: seq<byte>, word: seq<byte>)
    ensures var k := Agree(s, word); k <= |s| && k <= |word| && BeginsWith(s[..k], word[..k])
  {
    var k := Agree(s, word);
    var w, v := s[..k], word[..k];
    assert forall j {:trigger w[j]} | 0 <= j < k :: AsWord(w[j]) == v[j];
  }

  lemma AgreedValue(s: seq<byte>, word: seq<byte>)
    requires IsWordText(word) && NoHyphen(word)
    ensures var k := Agree(s, word); k <= |s| && (IsValue(s) <==> IsValue(s[k..]))
  {
    hide IsWordText, NoHyphen, IsValue, BeginsWith, Agree;
    var k := Agree(s, word);
    AgreedPart(s, word);
    WordIsValue(s[..k], word);
    ValueSplit(s[..k], s[k..]);
    assert s == s[..k] + s[k..];
  }

  lemma NotHunked(r: Reply, c: Config, left: seq<byte>, rest: seq<byte>)
    requires InValue(c, Value(HeaderValueTeChunked1)) && NoLf(left) && !BeginsWith(left, HUNKED)
    ensures PartEnds(r, c, left, rest, If(IsValue(left), c.fields.(headerState := 0)), [])
  {
    hide HttpRun, HttpReady, PartEnds, Agree, IsValue, MatchesFrom, BeginsWith, Fold, IsWordText, NoHyphen;
    HunkedText();
    AgreedValue(left, HUNKED);
    var k := Agree(left, HUNKED);
    var w, u := left[..k], left[k..];
    assert left == w + u;
    MissedHunked(left, rest);
    ValueTail(left, k);
    HunkedUnmatched(r, c, w, u + (CRLF + rest));
    var d := c.(place := Value(UpdateHeaderState7), pending := Extend(c.pending, w));
    Nothing(r, d, u, rest);
    PartLater(r, c, d, w, u, rest, If(IsValue(u), c.fields.(headerState := 0)), []);
  }

  lemma MissedHunked(left: seq<byte>, rest: seq<byte>)
    requires !BeginsWith(left, HUNKED)
    ensures var k := Agree(left, HUNKED);
      && k < |HUNKED| && MatchesFrom(HUNKED, true, 0, left[..k])
      && Fold((left[k..] + (CRLF + rest))[0], true) != HUNKED[k]
  {
    var k := Agree(left, HUNKED);
    var w := left[..k];
    assert HUNKED[..|HUNKED|] == HUNKED;
    forall j {:trigger w[j]} | 0 <= j < |w| ensures Fold(w[j], true) == HUNKED[0 + j] {
      assert w[j] == left[j] && HUNKED[..k][j] == HUNKED[j];
      FoldIsAsWord(left[j], HUNKED[j]);
    }
    if k < |left| {
      FoldIsAsWord(left[k], HUNKED[k]);
    } else {
      assert Fold(CR, true) == 0x2d;
    }
  }

  /** Where the first octet of a transfer coding leads; a NUL counts as a space. */
  lemma CodingOctet(x: byte)
    requires x != SP && x != LF
    ensures Dispatch(Value(HeaderValueTeChunked), x) ==
            if AsWord(x) == 0x63 then Advance(Value(HeaderValueTeChunked1))
            else Stay(Value(if x == 0 then HeaderValueDiscardRws else UpdateHeaderState7))
  {
  }

  /** A transfer coding: chunked and nothing else is remembered as that. */
  lemma Coded(r: Reply, c: Config, value: seq<byte>, rest: seq<byte>)
    requires InValue(c, Value(HeaderValueTeChunked)) && NoLf(value) && |value| > 0 && value[0] != SP
    ensures PartEnds(r, c, value, rest, If(IsValue(value), ChunkedMark(c.fields, IsWord(value, CHUNKED))), [])
  {
    assert value[0] in value;
    CodingOctet(value[0]);
    assert CHUNKED == [0x63] + HUNKED;
    OctetWord(value, 0x63, HUNKED);
    LineOctet(value);
    if AsWord(value[0]) == 0x63 {
      CodedC(r, c, value, rest);
    } else {
      CodedOther(r, c, value, rest);
    }
  }

  lemma CodedC(r: Reply, c: Config, value: seq<byte>, rest: seq<byte>)
    requires InValue(c, Value(HeaderValueTeChunked)) && NoLf(value) && |value| > 0 && AsWord(value[0]) == 0x63
    requires Dispatch(Value(HeaderValueTeChunked), value[0]) == Advance(Value(HeaderValueTeChunked1))
    ensures PartEnds(r, c, value, rest, If(IsValue(value), ChunkedMark(c.fields, IsWord(value[1..], HUNKED))), [])
  {
    hide HttpRun, HttpReady, PartEnds;
    var here, one := Value(HeaderValueTeChunked), Value(HeaderValueTeChunked1);
    ValueTail(value, 1);
    ValueHead(value);
    var d := c.(place := one, pending := Extend(c.pending, [value[0]]));
    if InValue(d, one) {
      if BeginsWith(value[1..], HUNKED) {
        Hunked(r, d, value[1..], rest);
      } else {
        NotHunked(r, d, value[1..], rest);
      }
    }
    PartOn(r, c, here, one, value, rest, If(IsValue(value), ChunkedMark(c.fields, IsWord(value[1..], HUNKED))), []);
  }

  lemma CodedOther(r: Reply, c: Config, value: seq<byte>, rest: seq<byte>)
    requires InValue(c, Value(HeaderValueTeChunked)) && NoLf(value) && |value| > 0 && value[0] != SP
    requires Dispatch(Value(HeaderValueTeChunked), (value + CRLF)[0])
             == Stay(Value(if value[0] == 0 then HeaderValueDiscardRws else UpdateHeaderState7))
    ensures PartEnds(r, c, value, rest, If(IsValue(value), c.fields.(headerState := 0)), [])
  {
    hide HttpRun, HttpReady;
    var next := Value(if value[0] == 0 then HeaderValueDiscardRws else UpdateHeaderState7);
    if InValue(c.(place := next), next) {
      if value[0] == 0 {
        RightSpaces(r, c.(place := next), value, rest);
      } else {
        Nothing(r, c.(place := next), value, rest);
      }
    }
    PartAside(r, c, Value(HeaderValueTeChunked), next, value, rest, If(IsValue(value), c.fields.(headerState := 0)), []);
  }

  /** An Upgrade value, whatever it says. */
  lemma Upgraded(r: Reply, c: Config, value: seq<byte>, rest: seq<byte>)
    requires InValue(c, Value(OrFlags16)) && NoLf(value)
    ensures PartEnds(r, c, value, rest,
                     If(IsValue(value), c.fields.(flags := c.fields.flags | F_UPGRADE, headerState := 0)), [])
  {
    hide HttpRun, HttpReady;
    var next := Value(UpdateHeaderState7);
    var d := c.(place := next, fields := c.fields.(flags := c.fields.flags | F_UPGRADE));
    if InValue(d, next) {
      Nothing(r, d, value, rest);
    }
    PartVia(r, c, Value(OrFlags16), next, value, rest, If(IsValue(value), d.fields.(headerState := 0)), []);
  }
}
