/** The numbers the HTTP parser reads, and exactly which digit strings it accepts. */
module LlhttpNumbers {
  import opened Bytes
  import opened LlhttpTypes
  import opened LlhttpTables
  import opened Llparse
  import opened LlparseBulk
  import opened LlhttpProgram

  datatype Radix = Dec | Hex

  function Digit(x: Radix, c: byte): Option<nat> {
    if x.Dec? then Decimal(c) else Hexadecimal(c)
  }

  /** `n` with one digit more at its right end. */
  function Append(x: Radix, n: nat, c: byte): nat
    requires Digit(x, c).Some?
  {
    if x.Dec? then n * 10 + Digit(x, c).value else n * 16 + Digit(x, c).value
  }

  predicate IsNumeral(x: Radix, s: seq<byte>) {
    forall i {:trigger s[i]} | 0 <= i < |s| :: Digit(x, s[i]).Some?
  }

  /** The digits of a radix, as octets. */
  predicate IsDigitOctet(x: Radix, c: byte) {
    0x30 <= c <= 0x39 || (x.Hex? && (0x41 <= c <= 0x46 || 0x61 <= c <= 0x66))
  }

  /** What a digit counts: its distance from 0, or from A or a and ten. */
  function DigitValue(c: byte): nat {
    if 0x30 <= c <= 0x39 then c as nat - 0x30
    else if 0x41 <= c <= 0x46 then c as nat - 0x41 + 10
    else if 0x61 <= c <= 0x66 then c as nat - 0x61 + 10
    else 0
  }

  /** The tables of the parser read exactly the digits, each as what it counts. */
  lemma DigitIs(x: Radix, c: byte)
    ensures Digit(x, c) == if IsDigitOctet(x, c) then Some(DigitValue(c)) else None
  {
    if x.Dec? {
      DecimalIs(c);
    } else {
      HexadecimalIs(c);
    }
  }

  lemma DecimalIs(c: byte)
    ensures Decimal(c) == if 0x30 <= c <= 0x39 then Some(c as nat - 0x30) else None
  {
  }

  lemma HexadecimalIs(c: byte)
    ensures Hexadecimal(c) == if IsDigitOctet(Hex, c) then Some(DigitValue(c)) else None
  {
    DecimalIs(c);
  }

  function Base(x: Radix): nat {
    if x.Dec? then 10 else 16
  }

  /** The number a numeral denotes, by place value: the last digit counts ones. */
  function Number(x: Radix, s: seq<byte>): nat {
    if |s| == 0 then 0 else Base(x) * Number(x, s[..|s| - 1]) + DigitValue(s[|s| - 1])
  }

  /** The value of a counter that starts at `acc` and takes in the digits from the left. */
  function Counted(x: Radix, acc: nat, s: seq<byte>): nat
    requires IsNumeral(x, s)
    decreases |s|
  {
    if |s| == 0 then acc
    else
      assert forall i {:trigger s[1..][i]} | 0 <= i < |s| - 1 :: s[1..][i] == s[i + 1];
      Counted(x, Append(x, acc, s[0]), s[1..])
  }

  lemma {:induction false} CountedGrows(x: Radix, acc: nat, s: seq<byte>)
    requires IsNumeral(x, s)
    ensures acc <= Counted(x, acc, s)
    decreases |s|
  {
    if |s| > 0 {
      assert forall i {:trigger s[1..][i]} | 0 <= i < |s| - 1 :: s[1..][i] == s[i + 1];
      CountedGrows(x, Append(x, acc, s[0]), s[1..]);
    }
  }

  lemma AppendIs(x: Radix, n: nat, c: byte)
    requires Digit(x, c).Some?
    ensures Append(x, n, c) == Base(x) * n + DigitValue(c)
  {
    DigitIs(x, c);
  }

  /** Taking digits in from the left gives the place value. */
  lemma {:induction false} CountedIsNumber(x: Radix, acc: nat, s: seq<byte>, t: seq<byte>)
    requires IsNumeral(x, s) && IsNumeral(x, t)
    requires acc == Number(x, s)
    ensures IsNumeral(x, s + t) && Counted(x, acc, t) == Number(x, s + t)
    decreases |t|
  {
    hide Append, DigitValue;
    if |t| == 0 {
      assert s + t == s;
    } else {
      var u := s + [t[0]];
      assert u[..|u| - 1] == s;
      AppendIs(x, acc, t[0]);
      assert forall i {:trigger t[1..][i]} | 0 <= i < |t| - 1 :: t[1..][i] == t[i + 1];
      CountedIsNumber(x, Append(x, acc, t[0]), u, t[1..]);
      assert u + t[1..] == s + t;
    }
  }

  function Scale(x: Radix, k: nat): nat {
    if k == 0 then 1 else Base(x) * Scale(x, k - 1)
  }

  /** Digits that find something in the counter go behind it. */
  lemma {:induction false} CountedOnTop(x: Radix, acc: nat, s: seq<byte>)
    requires IsNumeral(x, s)
    ensures Counted(x, acc, s) == acc * Scale(x, |s|) + Number(x, s)
    decreases |s|
  {
    if |s| > 0 {
      var init, last := s[..|s| - 1], s[|s| - 1];
      assert s == init + [last];
      assert forall i {:trigger init[i]} | 0 <= i < |init| :: init[i] == s[i];
      CountedOnTop(x, acc, init);
      CountedLast(x, acc, init, last);
      AppendIs(x, Counted(x, acc, init), last);
      Distributes(Base(x), acc, Scale(x, |init|), Number(x, init));
    }
  }

  lemma Distributes(b: nat, n: nat, k: nat, m: nat)
    ensures b * (n * k + m) == n * (b * k) + b * m
  {
  }

  lemma {:induction false} CountedLast(x: Radix, acc: nat, s: seq<byte>, c: byte)
    requires IsNumeral(x, s) && Digit(x, c).Some?
    ensures IsNumeral(x, s + [c]) && Counted(x, acc, s + [c]) == Append(x, Counted(x, acc, s), c)
    decreases |s|
  {
    hide Append;
    var t := s + [c];
    assert forall i {:trigger t[i]} | 0 <= i < |t| :: t[i] == if i < |s| then s[i] else c;
    if |s| == 0 {
      assert t[1..] == [];
    } else {
      assert t[1..] == s[1..] + [c];
      assert forall i {:trigger s[1..][i]} | 0 <= i < |s| - 1 :: s[1..][i] == s[i + 1];
      CountedLast(x, Append(x, acc, s[0]), s[1..], c);
    }
  }

  // ---------------------------------------------------------------- the three counters of the parser

  /** Where the parser counts: the size of a chunk, a Content-Length value, a status code. */
  datatype Counter = ChunkSizes | ContentLengths | StatusCodes

  function RadixOf(k: Counter): Radix {
    if k.ChunkSizes? then Hex else Dec
  }

  function Limit(k: Counter): nat {
    if k.StatusCodes? then 999 else UINT64_MAX
  }

  function Home(k: Counter): Label {
    match k
    case ChunkSizes => Body(ChunkSize)
    case ContentLengths => Value(HeaderValueContentLength)
    case StatusCodes => Line(ResStatusCode)
  }

  function Get(k: Counter, f: Fields): nat {
    if k.StatusCodes? then f.statusCode else f.contentLength
  }

  function Set(k: Counter, f: Fields, n: nat): Fields {
    if k.StatusCodes? then f.(statusCode := n) else f.(contentLength := n)
  }

  /** The code and the text of the error for a number that is too large. */
  function TooLarge(k: Counter): (nat, Reason) {
    match k
    case ChunkSizes => (12, ChunkSizeOverflow)
    case ContentLengths => (11, ContentLengthOverflow)
    case StatusCodes => (13, ResponseOverflow)
  }

  predicate StoppedAt(o: Outcome, code: int, reason: Reason, rest: seq<byte>) {
    o.Stopped? && o.code == code && o.reason == reason && o.rest == rest
  }

  /** The parser after some digits took its counter to `n`; digits of a header value are part of its span. */
  function With(k: Counter, c: Config, n: nat, digits: seq<byte>): Config {
    c.(fields := Set(k, c.fields, n), pending := Extend(c.pending, digits))
  }

  /** One digit more is taken in exactly when the number still fits. */
  ghost predicate OneDigit(g: Program, k: Counter, r: Reply, c: Config, input: seq<byte>)
    requires g.WellFormed() && g.Ready(c) && |input| > 0 && Digit(RadixOf(k), input[0]).Some?
  {
    var n := Append(RadixOf(k), Get(k, c.fields), input[0]);
    var d := With(k, c, n, [input[0]]);
    if n <= Limit(k) then g.Ready(d) && g.Run(r, c, input) == g.Run(r, d, input[1..])
    else StoppedAt(g.Run(r, c, input), TooLarge(k).0, TooLarge(k).1, input[1..])
  }

  /** The program stands at the counter with a digit ahead. */
  predicate CanRead(g: Program, k: Counter, c: Config, input: seq<byte>) {
    && g.Ready(c) && c.place == Home(k) && Get(k, c.fields) <= Limit(k)
    && |input| > 0 && Digit(RadixOf(k), input[0]).Some?
  }

  /** Wherever the program counts `k`, it takes digits in as OneDigit says. */
  ghost predicate Counts(g: Program, k: Counter, r: Reply) {
    && g.WellFormed()
    && forall c, input {:trigger CanRead(g, k, c, input)} ::
         CanRead(g, k, c, input) ==> OneDigit(g, k, r, c, input)
  }

  /** Where the parser is after reading a digit and adding it to the counter. */
  function Read(k: Counter, c: Config, octet: byte): Config
    requires Digit(RadixOf(k), octet).Some?
  {
    var d := Digit(RadixOf(k), octet).value;
    var (f, l) :=
      match k
      case ChunkSizes => MulAdd(c.fields, 16, d, Body(ChunkSize), Fail(12, ChunkSizeOverflow))
      case ContentLengths =>
        MulAdd(c.fields, 10, d, Value(HeaderValueContentLength), Value(SpanEndHeaderValue3))
      case StatusCodes => MulAddStatus(c.fields, d);
    c.(place := l, fields := f, pending := Extend(c.pending, [octet]))
  }

  lemma ChunkRead(r: Reply, c: Config, input: seq<byte>)
    requires HttpReady(c) && c.place == Body(ChunkSize)
    requires |input| > 0 && Digit(Hex, input[0]).Some?
    ensures HttpReady(Read(ChunkSizes, c, input[0]))
    ensures HttpRun(r, c, input) == HttpRun(r, Read(ChunkSizes, c, input[0]), input[1..])
  {
    var d := c.(place := Body(MulAddContentLength(Digit(Hex, input[0]).value)),
                pending := Extend(c.pending, [input[0]]));
    Take(r, c, input, d);
    Slide(r, d, input[1..], Read(ChunkSizes, c, input[0]));
  }

  lemma LengthRead(r: Reply, c: Config, input: seq<byte>)
    requires HttpReady(c) && c.place == Value(HeaderValueContentLength)
    requires |input| > 0 && Digit(Dec, input[0]).Some?
    ensures HttpReady(Read(ContentLengths, c, input[0]))
    ensures HttpRun(r, c, input) == HttpRun(r, Read(ContentLengths, c, input[0]), input[1..])
  {
    var d := c.(place := Value(MulAddContentLength1(Digit(Dec, input[0]).value)),
                pending := Extend(c.pending, [input[0]]));
    Take(r, c, input, d);
    Slide(r, d, input[1..], Read(ContentLengths, c, input[0]));
  }

  lemma StatusRead(r: Reply, c: Config, input: seq<byte>)
    requires HttpReady(c) && c.place == Line(ResStatusCode)
    requires |input| > 0 && Digit(Dec, input[0]).Some?
    ensures HttpReady(Read(StatusCodes, c, input[0]))
    ensures HttpRun(r, c, input) == HttpRun(r, Read(StatusCodes, c, input[0]), input[1..])
  {
    hide HttpReady, HttpRun;
    var n := Digit(Dec, input[0]).value;
    StatusDigit(r, c, input, n);
    StatusAdded(r, c.(place := Line(MulAddStatusCode(n)), pending := Extend(c.pending, [input[0]])), n, input[1..]);
  }

  lemma StatusDigit(r: Reply, c: Config, input: seq<byte>, n: nat)
    requires HttpReady(c) && c.place == Line(ResStatusCode)
    requires |input| > 0 && Digit(Dec, input[0]) == Some(n)
    ensures var d := c.(place := Line(MulAddStatusCode(n)), pending := Extend(c.pending, [input[0]]));
      HttpReady(d) && HttpRun(r, c, input) == HttpRun(r, d, input[1..])
  {
    Take(r, c, input, c.(place := Line(MulAddStatusCode(n)), pending := Extend(c.pending, [input[0]])));
  }

  lemma StatusAdded(r: Reply, c: Config, n: nat, input: seq<byte>)
    requires HttpReady(c) && c.place == Line(MulAddStatusCode(n))
    ensures var (f, l) := MulAddStatus(c.fields, n); var d := c.(place := l, fields := f);
      HttpReady(d) && HttpRun(r, c, input) == HttpRun(r, d, input)
  {
    var (f, l) := MulAddStatus(c.fields, n);
    Slide(r, c, input, c.(place := l, fields := f));
  }

  /** A run that starts at an error stops there. */
  lemma Halted(r: Reply, c: Config, input: seq<byte>)
    requires HttpReady(c) && c.place.Fail?
    ensures StoppedAt(HttpRun(r, c, input), c.place.code, c.place.reason, input)
  {
    HttpOn(r, c, input);
  }

  lemma LengthOverflows(r: Reply, c: Config, input: seq<byte>)
    requires HttpReady(c) && c.place == Value(SpanEndHeaderValue3)
    ensures StoppedAt(HttpRun(r, c, input), 11, ContentLengthOverflow, input)
  {
    var d := Close(c, ValueSpan, Fail(11, ContentLengthOverflow));
    Slide(r, c, input, d);
    Halted(r, d, input);
  }

  /** What reading a digit comes to: the number one digit longer, or the error. */
  lemma ReadExact(k: Counter, c: Config, octet: byte)
    requires Get(k, c.fields) <= Limit(k) && c.place == Home(k) && Digit(RadixOf(k), octet).Some?
    ensures var n := Append(RadixOf(k), Get(k, c.fields), octet);
      var d := Read(k, c, octet);
      if n <= Limit(k) then d == With(k, c, n, [octet])
      else d.place == (if k.ContentLengths? then Value(SpanEndHeaderValue3) else Fail(TooLarge(k).0, TooLarge(k).1))
  {
  }

  lemma AnyDigit(k: Counter, r: Reply, c: Config, input: seq<byte>)
    requires HttpReady(c) && c.place == Home(k) && Get(k, c.fields) <= Limit(k)
    requires |input| > 0 && Digit(RadixOf(k), input[0]).Some?
    ensures LLHTTP.WellFormed() && OneDigit(LLHTTP, k, r, c, input)
  {
    LlhttpWellFormed();
    match k {
      case ChunkSizes => ChunkRead(r, c, input);
      case ContentLengths => LengthRead(r, c, input);
      case StatusCodes => StatusRead(r, c, input);
    }
    ReadExact(k, c, input[0]);
    var d := Read(k, c, input[0]);
    if d.place.Fail? {
      Halted(r, d, input[1..]);
    } else if d.place == Value(SpanEndHeaderValue3) {
      LengthOverflows(r, d, input[1..]);
    }
  }

  lemma LlhttpCounts(k: Counter, r: Reply)
    ensures Counts(LLHTTP, k, r)
  {
    LlhttpWellFormed();
    forall c, input | CanRead(LLHTTP, k, c, input)
      ensures OneDigit(LLHTTP, k, r, c, input)
    {
      AnyDigit(k, r, c, input);
    }
  }

  /** How many digits it takes for a counter starting at `acc` to pass the limit. */
  function PassesAt(x: Radix, acc: nat, s: seq<byte>, limit: nat): (k: nat)
    requires IsNumeral(x, s) && acc <= limit < Counted(x, acc, s)
    ensures 0 < k <= |s|
    ensures IsNumeral(x, s[..k - 1]) && Counted(x, acc, s[..k - 1]) <= limit
    ensures IsNumeral(x, s[..k]) && limit < Counted(x, acc, s[..k])
    decreases |s|
  {
    Tail(x, s);
    var n := Append(x, acc, s[0]);
    if n > limit then
      assert s[..1][1..] == [] && s[..1][0] == s[0];
      assert Counted(x, n, []) == n;
      1
    else
      var k := PassesAt(x, n, s[1..], limit);
      assert s[..k + 1][1..] == s[1..][..k] && s[..k + 1][0] == s[0];
      assert k - 1 > 0 ==> s[..k][1..] == s[1..][..k - 1] && s[..k][0] == s[0];
      k + 1
  }

  lemma Tail(x: Radix, s: seq<byte>)
    requires IsNumeral(x, s) && |s| > 0
    ensures IsNumeral(x, s[1..])
    ensures Digit(x, s[0]).Some?
  {
    assert forall i {:trigger s[1..][i]} | 0 <= i < |s| - 1 :: s[1..][i] == s[i + 1];
  }

  /** A numeral that fits is taken in whole. */
  lemma {:induction false} DigitsFit(g: Program, k: Counter, r: Reply, c: Config, s: seq<byte>, rest: seq<byte>)
    requires Counts(g, k, r) && g.Ready(c) && c.place == Home(k)
    requires IsNumeral(RadixOf(k), s) && Counted(RadixOf(k), Get(k, c.fields), s) <= Limit(k)
    ensures var d := With(k, c, Counted(RadixOf(k), Get(k, c.fields), s), s);
      g.Ready(d) && g.Run(r, c, s + rest) == g.Run(r, d, rest)
    decreases |s|
  {
    hide IsNumeral, Append, Limit, TooLarge, RadixOf;
    var x := RadixOf(k);
    if |s| == 0 {
      assert s + rest == rest;
      ExtendNothing(c.pending);
    } else {
      Tail(x, s);
      var n := Append(x, Get(k, c.fields), s[0]);
      CountedGrows(x, n, s[1..]);
      CountedGrows(x, Get(k, c.fields), s);
      assert CanRead(g, k, c, s + rest) && (s + rest)[1..] == s[1..] + rest;
      var d := With(k, c, n, [s[0]]);
      DigitsFit(g, k, r, d, s[1..], rest);
      WithTwice(k, c, s, n, Counted(x, n, s[1..]));
    }
  }

  lemma WithTwice(k: Counter, c: Config, s: seq<byte>, n: nat, m: nat)
    requires |s| > 0
    ensures With(k, With(k, c, n, [s[0]]), m, s[1..]) == With(k, c, m, s)
  {
    ExtendTwice(c.pending, [s[0]], s[1..]);
    assert [s[0]] + s[1..] == s;
  }

  lemma LaterPart(s: seq<byte>, p: nat)
    requires p + 1 <= |s|
    ensures s[1..][p..] == s[p + 1..]
  {
  }

  /** A numeral that does not fit is an error right after the digit that makes it too large. */
  lemma {:induction false} DigitsPass(g: Program, k: Counter, r: Reply, c: Config, s: seq<byte>, rest: seq<byte>)
    requires Counts(g, k, r) && g.Ready(c) && c.place == Home(k) && Get(k, c.fields) <= Limit(k)
    requires IsNumeral(RadixOf(k), s) && Counted(RadixOf(k), Get(k, c.fields), s) > Limit(k)
    ensures var p := PassesAt(RadixOf(k), Get(k, c.fields), s, Limit(k));
      StoppedAt(g.Run(r, c, s + rest), TooLarge(k).0, TooLarge(k).1, s[p..] + rest)
    decreases |s|
  {
    hide IsNumeral, Append, Limit, TooLarge, RadixOf;
    var x := RadixOf(k);
    Tail(x, s);
    var n := Append(x, Get(k, c.fields), s[0]);
    assert CanRead(g, k, c, s + rest) && (s + rest)[1..] == s[1..] + rest;
    if n <= Limit(k) {
      var p := PassesAt(x, n, s[1..], Limit(k));
      LaterPart(s, p);
      DigitsPass(g, k, r, With(k, c, n, [s[0]]), s[1..], rest);
    }
  }

  /** From zero, a decimal Content-Length or a hexadecimal chunk size is accepted if and only if its value is below
      2^64, a status code if and only if it is at most 999; and the counter is then that value. */
  lemma NumberAccepted(k: Counter, r: Reply, c: Config, s: seq<byte>)
    requires HttpReady(c) && c.place == Home(k) && Get(k, c.fields) == 0
    requires IsNumeral(RadixOf(k), s)
    ensures var o := HttpRun(r, c, s); var n := Number(RadixOf(k), s);
      if n <= Limit(k) then o == Running(With(k, c, n, s))
      else o.Stopped? && o.code == TooLarge(k).0 && o.reason == TooLarge(k).1
  {
    hide Limit, TooLarge;
    CountedIsNumber(RadixOf(k), 0, [], s);
    assert [] + s == s && s + [] == s;
    var n := Number(RadixOf(k), s);
    LlhttpCounts(k, r);
    if n <= Limit(k) {
      DigitsFit(LLHTTP, k, r, c, s, []);
      AtHome(k, r, With(k, c, n, s));
    } else {
      DigitsPass(LLHTTP, k, r, c, s, []);
    }
  }

  /** At a counter the parser waits for input. */
  lemma AtHome(k: Counter, r: Reply, c: Config)
    requires HttpReady(c) && c.place == Home(k)
    ensures HttpRun(r, c, []) == Running(c)
  {
    HttpOn(r, c, []);
  }
}
