/** The inspector's side of a WebSocket connection: frames built and taken apart, and the loop over what a read brought. */
module WebSocket {
  import opened Bytes
  import BigEndian
  import opened WebSocketFrame
  import Base64
  import Sha1
  import Sha1Spec

  const TWO_64: nat := 0x1_0000_0000_0000_0000

  // ---------------------------------------------------------------- encoding

  /** A text frame as a server sends it. */
  function TextFrame(message: seq<byte>): Frame {
    Frame(0x80 | TEXT, None, message)
  }

  /** One octet of the extended length is split off. */
  lemma SplitOff(n: nat, k: nat, behind: seq<byte>)
    requires n < BigEndian.Power(k + 1)
    ensures n / 256 < BigEndian.Power(k)
    ensures BigEndian.Octets(n / 256, k) + ([BigEndian.Octet(n % 256)] + behind) == BigEndian.Octets(n, k + 1) + behind
  {
    BigEndian.OctetsMore(n, k);
    Regroup(BigEndian.Octets(n / 256, k), [BigEndian.Octet(n % 256)], behind);
  }

  /** The eight octets of the extended length, filled from the last. */
  method LongLength(n: nat) returns (extended: array<byte>)
    requires n < TWO_64
    ensures fresh(extended) && extended[..] == BigEndian.Octets(n, 8)
  {
    extended := new byte[8];
    var remaining: nat := n;
    var i := 0;
    BigEndian.Powers();
    hide BigEndian.Octets, BigEndian.Octet, BigEndian.Power;
    while i < 8
      invariant 0 <= i <= 8 && remaining < BigEndian.Power(8 - i)
      invariant BigEndian.Octets(remaining, 8 - i) + extended[8 - i..] == BigEndian.Octets(n, 8)
    {
      SplitOff(remaining, 7 - i, extended[8 - i..]);
      extended[7 - i] := BigEndian.Octet(remaining % 256);
      assert extended[7 - i..] == [extended[7 - i]] + extended[8 - i..];
      remaining := remaining / 256;
      i := i + 1;
    }
    assert extended[0..] == extended[..];
  }

  /** encode_frame_hybi17: the frame of section 5.2 of RFC 6455, with its length in the shortest form. */
  method EncodeFrame(message: seq<byte>) returns (frame: seq<byte>)
    requires |message| < TWO_63
    ensures frame == Wire(TextFrame(message))
  {
    frame := [0x80 | TEXT];
    var size := |message|;
    if size <= 125 {
      frame := frame + [BigEndian.Octet(size)];
    } else if size <= 0xffff {
      frame := frame + [126];
      frame := frame + [BigEndian.Octet(size / 256)];
      frame := frame + [BigEndian.Octet(size % 256)];
      TwoOctets(size);
    } else {
      frame := frame + [127];
      var extended := LongLength(size);
      frame := frame + extended[..];
    }
    PlainHead(message);
    assert frame == Head(TextFrame(message));
    frame := frame + message;
  }

  lemma TwoOctets(n: nat)
    requires n <= 0xffff
    ensures BigEndian.Octets(n, 2) == [BigEndian.Octet(n / 256), BigEndian.Octet(n % 256)]
  {
    BigEndian.OctetsMore(n, 1);
    BigEndian.OctetsMore(n / 256, 0);
    assert n / 256 % 256 == n / 256;
  }

  /** The mask bit is off. */
  lemma PlainHead(message: seq<byte>)
    ensures var n := |message|;
      Head(TextFrame(message)) == [0x80 | TEXT, Length7(n)] + BigEndian.Octets(n, Extended(n))
  {
    PlainBit(Length7(|message|));
  }

  lemma PlainBit(o: byte)
    ensures Bit(false, 0x80) | o == o
  {
  }

  /** What the inspector sends reads back as the messages it was given, one text frame each, and as nothing else. */
  lemma {:induction false} SentReadsBack(messages: seq<seq<byte>>, sent: seq<byte>)
    requires forall i | 0 <= i < |messages| :: |messages[i]| < TWO_63
    requires sent == Flatten(Frames(messages))
    ensures ParseAll(sent) == Some(TextFrames(messages))
    decreases |messages|
  {
    if |messages| > 0 {
      SentReadsBack(messages[1..], Flatten(Frames(messages[1..])));
      assert Frames(messages)[1..] == Frames(messages[1..]);
      ParseWire(TextFrame(messages[0]), Flatten(Frames(messages[1..])));
    }
  }

  function TextFrames(messages: seq<seq<byte>>): seq<Frame> {
    if |messages| == 0 then [] else [TextFrame(messages[0])] + TextFrames(messages[1..])
  }

  function Frames(messages: seq<seq<byte>>): seq<seq<byte>>
    requires forall i | 0 <= i < |messages| :: |messages[i]| < TWO_63
  {
    if |messages| == 0 then [] else [Wire(TextFrame(messages[0]))] + Frames(messages[1..])
  }

  // ---------------------------------------------------------------- decoding

  datatype WsResult =
    | FrameOk
    | FrameIncomplete
    | FrameClose
    | FrameError
    /** The source reads behind the end of the buffer; what it finds there is not part of this model. */
    | FrameOverrun

  datatype Decoded = Decoded(result: WsResult, consumed: nat, output: seq<byte>, compressed: bool)

  function Failed(result: WsResult, compressed: bool): Decoded {
    Decoded(result, 0, [], compressed)
  }

  /** size_t subtraction. */
  function Minus(x: nat, y: nat): nat
    requires y < TWO_64
  {
    if x >= y then x - y else x + TWO_64 - y
  }

  /** Frames the inspector takes: final, no reserved bits but the first, text or close. */
  predicate Acceptable(first: byte) {
    first & 0x80 != 0 && first & 0x30 == 0 && (first & 0xf == TEXT || first & 0xf == CLOSE)
  }

  /** What decode_frame_hybi17 makes of a buffer from a client. */
  function Decode(b: seq<byte>): Decoded {
    if |b| < 2 then Failed(FrameIncomplete, false)
    else
      var compressed := b[0] & 0x40 != 0;
      var k := Announced(b[1] & 0x7f);
      if !Acceptable(b[0]) || b[1] & 0x80 == 0 then Failed(FrameError, compressed)
      else if |b| < 2 + k then Failed(FrameIncomplete, compressed)
      else DecodeBody(b, k, LengthAt(b), compressed)
  }

  /** The part behind the length. */
  function DecodeBody(b: seq<byte>, k: nat, n: nat, compressed: bool): Decoded
    requires |b| >= 2 + k
  {
    if n >= TWO_63 then Failed(FrameError, compressed)
    else if Minus(|b|, 4) < n then Failed(FrameIncomplete, compressed)
    else if |b| < 6 + k + n then Failed(FrameOverrun, compressed)
    else
      Decoded(if b[0] & 0xf == CLOSE then FrameClose else FrameOk, 6 + k + n,
              Masked(b[6 + k..6 + k + n], b[2 + k..6 + k]), compressed)
  }

  lemma DecodeParsed(b: seq<byte>)
    requires Parse(b).Some? && Parse(b).value.0.key.Some?
    ensures var (f, rest) := Parse(b).value;
      && |rest| <= |b| && rest == b[|b| - |rest|..]
      && Decode(b) ==
         if !Acceptable(f.first) then Failed(FrameError, f.Rsv1())
         else Decoded(if f.Opcode() == CLOSE then FrameClose else FrameOk, |b| - |rest|, f.payload, f.Rsv1())
  {
  }

  /** A whole frame at the start of the buffer, whatever follows: it is refused or it is taken, unmasked, to its last
      octet. */
  lemma DecodeWhole(b: seq<byte>)
    requires Parse(b).Some? && Parse(b).value.0.key.Some?
    ensures var (f, rest) := Parse(b).value;
      && IsFrame(f) && |b| == |Wire(f)| + |rest| && rest == b[|Wire(f)|..]
      && Decode(b) ==
         if !Acceptable(f.first) then Failed(FrameError, f.Rsv1())
         else Decoded(if f.Opcode() == CLOSE then FrameClose else FrameOk, |Wire(f)|, f.payload, f.Rsv1())
  {
    DecodeParsed(b);
    WireParse(b);
  }

  /** A frame that was taken, octet by octet: its first octet is that of a final text or close frame, its mask bit is set,
      and the output is the payload behind the key, each octet against its octet of the key. */
  ghost predicate Taken(b: seq<byte>, close: bool, consumed: int, output: seq<byte>, compressed: bool)
    requires |b| >= 2
  {
    var at := KeyAt(b);
    && (b[0] == if close then (if compressed then 0xc8 else 0x88) else (if compressed then 0xc1 else 0x81))
    && b[1] & 0x80 != 0
    && at + 4 + |output| <= |b| && consumed == ToInt(at + 4 + |output|)
    && (|output| == if at == 2 then (b[1] & 0x7f) as nat else BigEndian.Number(b[2..at]))
    && forall i | 0 <= i < |output| :: output[i] == b[at + 4 + i] ^ b[at + i % 4]
  }

  lemma FirstOctets(o: byte)
    requires Acceptable(o)
    ensures o == if o & 0xf == CLOSE then (if o & 0x40 != 0 then 0xc8 else 0x88) else if o & 0x40 != 0 then 0xc1 else 0x81
  {
  }

  lemma PayloadHere(b: seq<byte>, at: nat, n: nat)
    requires at + 4 + n <= |b|
    ensures var output := Masked(b[at + 4..at + 4 + n], b[at..at + 4]);
      |output| == n && forall i | 0 <= i < n :: output[i] == b[at + 4 + i] ^ b[at + i % 4]
  {
    var key, data := b[at..at + 4], b[at + 4..at + 4 + n];
    assert forall i | 0 <= i < n :: data[i] == b[at + 4 + i] && key[i % 4] == b[at + i % 4];
  }

  lemma LengthHere(b: seq<byte>)
    requires |b| >= 2 && |b| >= 2 + Announced(b[1] & 0x7f)
    ensures var at := KeyAt(b);
      at == 2 + Announced(b[1] & 0x7f)
      && LengthAt(b) == if at == 2 then (b[1] & 0x7f) as nat else BigEndian.Number(b[2..at])
  {
    SecondBack(b[1]);
    AnnouncedIs(b[1] & 0x7f);
  }

  lemma DecodeIs(b: seq<byte>)
    requires Decode(b).result.FrameOk? || Decode(b).result.FrameClose?
    ensures |b| >= 2 && |b| >= 2 + Announced(b[1] & 0x7f)
    ensures var d, k, n := Decode(b), Announced(b[1] & 0x7f), LengthAt(b);
      && Acceptable(b[0]) && b[1] & 0x80 != 0 && 6 + k + n <= |b|
      && d == Decoded(if b[0] & 0xf == CLOSE then FrameClose else FrameOk, 6 + k + n,
                      Masked(b[6 + k..6 + k + n], b[2 + k..6 + k]), b[0] & 0x40 != 0)
  {
    hide Masked, LengthAt, Announced, Acceptable, Minus;
  }

  lemma DecodeTakes(b: seq<byte>)
    requires Decode(b).result.FrameOk? || Decode(b).result.FrameClose?
    ensures var d := Decode(b);
      |b| >= 2 && Taken(b, d.result.FrameClose?, ToInt(d.consumed), d.output, d.compressed)
  {
    hide Decode, Masked, LengthAt, KeyAt, Announced, ToInt, Acceptable;
    DecodeIs(b);
    LengthHere(b);
    FirstOctets(b[0]);
    PayloadHere(b, KeyAt(b), LengthAt(b));
    assert 6 + Announced(b[1] & 0x7f) == KeyAt(b) + 4;
  }

  lemma AcceptableIs(o: byte)
    ensures Acceptable(o) <==> o == 0x81 || o == 0xc1 || o == 0x88 || o == 0xc8
  {
  }

  lemma MaskBit(o: byte)
    ensures o & 0x80 == 0 <==> o < 0x80
  {
  }

  lemma ShortLengths(b: seq<byte>)
    requires |b| >= 2 && |b| >= 2 + Announced(b[1] & 0x7f) && b[1] & 0x7f != 127
    ensures LengthAt(b) < TWO_63
  {
    SecondBack(b[1]);
    AnnouncedIs(b[1] & 0x7f);
    if b[1] & 0x7f == 126 {
      BigEndian.OctetsBack(b[2..4]);
      BigEndian.Powers();
    } else {
      BigEndian.OctetBack(b[1] & 0x7f);
    }
  }

  /** Exactly which buffers are refused: those whose first octet is not that of a final text or close frame, those without
      the mask bit, and those that announce a length of 2^63 or more. */
  lemma DecodeRefuses(b: seq<byte>)
    ensures Decode(b).result.FrameError? <==>
      && |b| >= 2
      && ((b[0] != 0x81 && b[0] != 0xc1 && b[0] != 0x88 && b[0] != 0xc8) || b[1] < 0x80
          || (b[1] & 0x7f == 127 && |b| >= 10 && BigEndian.Number(b[2..10]) >= TWO_63))
  {
    if |b| >= 2 {
      AcceptableIs(b[0]);
      MaskBit(b[1]);
      SecondBack(b[1]);
      AnnouncedIs(b[1] & 0x7f);
      if |b| >= 2 + Announced(b[1] & 0x7f) {
        LengthHere(b);
        if b[1] & 0x7f != 127 {
          ShortLengths(b);
        }
      }
    }
  }

  /** How decoding goes while only the first `size` octets of a client's frame have come. */
  function EarlyResult(f: Frame, size: nat): WsResult
    requires IsFrame(f)
  {
    var head := 2 + Extended(|f.payload|);
    if size < head || 4 <= size < 4 + |f.payload| then FrameIncomplete else FrameOverrun
  }

  lemma HeadSoFar(f: Frame, size: nat)
    requires IsFrame(f) && f.key.Some? && 2 <= size < |Wire(f)|
    ensures var b := Wire(f)[..size]; var n := |f.payload|;
      && b[0] == f.first && b[1] & 0x80 != 0 && Announced(b[1] & 0x7f) == Extended(n)
      && (size >= 2 + Extended(n) ==> LengthAt(b) == n)
  {
    var s, b := Wire(f), Wire(f)[..size];
    HeadBack(f, f.key.value + Masked(f.payload, f.key.value));
    assert b[0] == s[0] && b[1] == s[1];
    var k := Extended(|f.payload|);
    if size >= 2 + k {
      assert b[2..2 + k] == s[2..2 + k];
    }
  }

  /** The completeness test leaves the header out of account. An unfinished frame is recognised as unfinished exactly
      while its length is not known yet or while fewer octets than four and the payload have come; otherwise the source
      goes on to read octets that are not there. */
  lemma DecodeEarly(f: Frame, size: nat)
    requires IsFrame(f) && f.key.Some? && Acceptable(f.first) && size < |Wire(f)|
    ensures var d := Decode(Wire(f)[..size]);
      d.result == EarlyResult(f, size) && d.compressed == (size >= 2 && f.Rsv1())
  {
    if size >= 2 {
      HeadSoFar(f, size);
    }
  }

  /** For instance the first two octets of an empty text frame. */
  lemma EarlyExample()
    ensures var f := Frame(0x81, Some([0, 0, 0, 0]), []);
      IsFrame(f) && Wire(f)[..2] == [0x81, 0x80] && Read([0x81, 0x80]) == Reading([], Overrun, [0x81, 0x80])
  {
    var f := Frame(0x81, Some([0, 0, 0, 0]), []);
    DecodeEarly(f, 2);
  }

  /** A size_t kept in an int. */
  function ToInt(n: nat): (i: int)
    ensures i <= n
  {
    if n % 0x1_0000_0000 < 0x8000_0000 then n % 0x1_0000_0000 else n % 0x1_0000_0000 - 0x1_0000_0000
  }

  /** The extended length; shifting in octets never overflows 64 bits. */
  method ReadLength(b: seq<byte>, at: nat, k: nat) returns (n: nat)
    requires at + k <= |b|
    ensures n == BigEndian.Number(b[at..at + k])
  {
    n := 0;
    var i := 0;
    while i < k
      invariant 0 <= i <= k && n == BigEndian.Number(b[at..at + i])
    {
      assert b[at..at + i + 1][..i] == b[at..at + i];
      n := n * 256;
      n := n + b[at + i] as nat;
      i := i + 1;
    }
  }

  method Unmask(payload: seq<byte>, key: seq<byte>) returns (output: seq<byte>)
    requires IsKey(key)
    ensures output == Masked(payload, key)
  {
    output := [];
    var i := 0;
    while i < |payload|
      invariant 0 <= i <= |payload| && output == Masked(payload, key)[..i]
    {
      output := output + [payload[i] ^ key[i % 4]];
      i := i + 1;
    }
  }

  /** decode_frame_hybi17 for frames from a client. */
  method DecodeFrame(b: seq<byte>) returns (result: WsResult, consumed: int, output: seq<byte>, compressed: bool)
    ensures var d := Decode(b);
      result == d.result && consumed == ToInt(d.consumed) && output == d.output && compressed == d.compressed
    ensures result.FrameOk? || result.FrameClose? ==>
      |b| >= 2 && Taken(b, result.FrameClose?, consumed, output, compressed)
  {
    if Decode(b).result.FrameOk? || Decode(b).result.FrameClose? {
      DecodeTakes(b);
    }
    consumed := 0;
    output := [];
    compressed := false;
    if |b| < 2 {
      return FrameIncomplete, consumed, output, compressed;
    }
    var it := 2;
    compressed := b[0] & 0x40 != 0;
    if !(b[0] & 0x80 != 0) || b[0] & 0x20 != 0 || b[0] & 0x10 != 0 {
      TwoBits(b[0]);
      return FrameError, consumed, output, compressed;
    }
    TwoBits(b[0]);
    var closed := b[0] & 0xf == CLOSE;
    if !closed && b[0] & 0xf != TEXT {
      return FrameError, consumed, output, compressed;
    }
    if !(b[1] & 0x80 != 0) {
      return FrameError, consumed, output, compressed;
    }
    SecondBack(b[1]);
    var length7 := b[1] & 0x7f;
    var k := if length7 == 126 then 2 else if length7 == 127 then 8 else 0;
    assert k == Announced(length7);
    var n: nat;
    if length7 > 125 {
      if |b| - it < k {
        return FrameIncomplete, consumed, output, compressed;
      }
      n := ReadLength(b, it, k);
      it := it + k;
    } else {
      n := length7 as nat;
    }
    result, consumed, output := DecodeRest(b, k, n, compressed);
  }

  lemma TwoBits(o: byte)
    ensures o & 0x30 == 0 <==> o & 0x20 == 0 && o & 0x10 == 0
  {
  }

  /** The part behind the length. */
  method DecodeRest(b: seq<byte>, k: nat, n: nat, ghost compressed: bool)
    returns (result: WsResult, consumed: int, output: seq<byte>)
    requires |b| >= 2 + k
    ensures var d := DecodeBody(b, k, n, compressed);
      result == d.result && consumed == ToInt(d.consumed) && output == d.output
  {
    if n >= TWO_63 || Minus(|b|, 4) < n {
      return if n >= TWO_63 then FrameError else FrameIncomplete, 0, [];
    }
    if |b| < 6 + k + n {
      return FrameOverrun, 0, [];
    }
    output := Unmask(b[6 + k..6 + k + n], b[2 + k..6 + k]);
    return if b[0] & 0xf == CLOSE then FrameClose else FrameOk, ToInt(6 + k + n), output;
  }

  // ---------------------------------------------------------------- the read loop

  /** What one read leads to: the payloads delivered, how it ends, and the octets left in the buffer. A read that ends in
      an overrun goes on with octets that are not there: what it delivers and leaves behind the payloads is unknown. */
  datatype Ending = Hungry | Refused | ClosedByPeer | Overrun
  datatype Reading = Reading(payloads: seq<seq<byte>>, ending: Ending, rest: seq<byte>)

  function Read(b: seq<byte>): Reading
    decreases |b|
  {
    var d := Decode(b);
    if d.result.FrameOverrun? then Reading([], Overrun, b)
    else if d.compressed || d.result.FrameError? then Reading([], Refused, b)
    else if d.result.FrameClose? then Reading([], ClosedByPeer, b)
    else if d.result.FrameIncomplete? then Reading([], Hungry, b)
    else
      var processed := ToInt(d.consumed);
      if processed <= 0 || processed >= |b| then
        Reading([d.output], Hungry, if processed <= 0 then b else [])
      else
        var more := Read(b[processed..]);
        more.(payloads := [d.output] + more.payloads)
  }

  /** A text frame from a client, short enough for an int. */
  predicate IsClientText(f: Frame) {
    IsFrame(f) && f.key.Some? && Acceptable(f.first) && !f.Rsv1() && f.Opcode() == TEXT && |Wire(f)| < 0x8000_0000
  }

  predicate AreClientTexts(fs: seq<Frame>) {
    forall i | 0 <= i < |fs| :: IsClientText(fs[i])
  }

  function Payloads(fs: seq<Frame>): seq<seq<byte>> {
    if |fs| == 0 then [] else [fs[0].payload] + Payloads(fs[1..])
  }

  lemma ReadOne(f: Frame, rest: seq<byte>)
    requires IsClientText(f)
    ensures Read(Wire(f) + rest) ==
      if rest == [] then Reading([f.payload], Hungry, [])
      else Read(rest).(payloads := [f.payload] + Read(rest).payloads)
  {
    hide Parse, Decode, Masked, Head;
    ParseWire(f, rest);
    DecodeWhole(Wire(f) + rest);
    assert ToInt(|Wire(f)|) == |Wire(f)| && TEXT != CLOSE;
  }

  /** Client frames in one read are delivered in order, whole and unmasked, and leave the buffer as if it had begun with
      what follows them; without anything behind them it is empty. */
  lemma {:induction false} ReadAll(fs: seq<Frame>, rest: seq<byte>)
    requires AreClientTexts(fs) && AreFrames(fs)
    ensures var after := if rest == [] then Reading([], Hungry, []) else Read(rest);
      |fs| > 0 ==> Read(WireAll(fs) + rest) == after.(payloads := Payloads(fs) + after.payloads)
    decreases |fs|
  {
    hide Parse, Decode, Masked, Head, Read;
    if |fs| > 0 {
      var more := WireAll(fs[1..]) + rest;
      assert WireAll(fs) + rest == Wire(fs[0]) + more;
      ReadOne(fs[0], more);
      ReadAll(fs[1..], rest);
      if |fs| == 1 {
        assert more == rest && Payloads(fs) == [fs[0].payload];
      } else {
        assert more != [] by {
          assert |WireAll(fs[1..])| >= |Wire(fs[1])| > 0;
        }
        var after := if rest == [] then Reading([], Hungry, []) else Read(rest);
        Regroup([fs[0].payload], Payloads(fs[1..]), after.payloads);
      }
    }
  }

  lemma DeliverAll(fs: seq<Frame>)
    requires AreClientTexts(fs) && AreFrames(fs) && |fs| > 0
    ensures Read(WireAll(fs)) == Reading(Payloads(fs), Hungry, [])
  {
    ReadAll(fs, []);
    assert WireAll(fs) + [] == WireAll(fs) && Payloads(fs) + [] == Payloads(fs);
  }

  /** A read that ends in the middle of a frame waits for the rest, or overruns, as DecodeEarly says. */
  lemma ReadEarly(fs: seq<Frame>, f: Frame, size: nat)
    requires AreClientTexts(fs) && AreFrames(fs) && IsClientText(f) && 0 < size < |Wire(f)|
    ensures var early := Wire(f)[..size];
      Read(WireAll(fs) + early)
        == Reading(Payloads(fs), if EarlyResult(f, size).FrameOverrun? then Overrun else Hungry, early)
  {
    var early := Wire(f)[..size];
    DecodeEarly(f, size);
    ReadAll(fs, early);
    if |fs| == 0 {
      assert WireAll(fs) + early == early;
    }
    assert Payloads(fs) + [] == Payloads(fs);
  }

  /** The bound on the size is exact: a frame of 2^31 octets or more, and less than 2^32, is delivered and stays. */
  lemma TooLong(f: Frame, rest: seq<byte>)
    requires IsFrame(f) && f.key.Some? && Acceptable(f.first) && !f.Rsv1() && f.Opcode() == TEXT
    requires 0x8000_0000 <= |Wire(f)| < 0x1_0000_0000
    ensures Read(Wire(f) + rest) == Reading([f.payload], Hungry, Wire(f) + rest)
  {
    ParseWire(f, rest);
    DecodeWhole(Wire(f) + rest);
    assert ToInt(|Wire(f)|) == |Wire(f)| - 0x1_0000_0000 && TEXT != CLOSE;
  }

  // "Hello", and its masked and unmasked frames in section 5.7 of RFC 6455
  const HELLO: seq<byte> := [0x48, 0x65, 0x6c, 0x6c, 0x6f]
  const HELLO_MASKED: seq<byte> := [0x81, 0x85, 0x37, 0xfa, 0x21, 0x3d, 0x7f, 0x9f, 0x4d, 0x51, 0x58]
  const HELLO_PLAIN: seq<byte> := [0x81, 0x05, 0x48, 0x65, 0x6c, 0x6c, 0x6f]

  /** The examples of the standard: the masked frame is delivered as "Hello", and "Hello" is sent as the other. */
  lemma HelloFrames()
    ensures Read(HELLO_MASKED) == Reading([HELLO], Hungry, [])
    ensures Wire(TextFrame(HELLO)) == HELLO_PLAIN
  {
    HelloRead();
    HelloSent();
  }

  lemma HelloRead()
    ensures Read(HELLO_MASKED) == Reading([HELLO], Hungry, [])
  {
    hide Decode;
    HelloDecoded();
    assert ToInt(11) == 11 && |HELLO_MASKED| == 11;
  }

  lemma HelloSent()
    ensures Wire(TextFrame(HELLO)) == HELLO_PLAIN
  {
    hide BigEndian.Octet, Head;
    PlainHead(HELLO);
    ShortLength();
    assert BigEndian.Octets(5, 0) == [];
  }

  lemma ShortLength()
    ensures Extended(5) == 0 && Length7(5) == 5
  {
    BigEndian.OctetBack(5);
  }

  lemma HelloDecoded()
    ensures Decode(HELLO_MASKED) == Decoded(FrameOk, 11, HELLO, false)
  {
    var b := HELLO_MASKED;
    assert b[0] == 0x81 && b[1] == 0x85 && b[1] & 0x7f == 5;
    var key, data := b[2..6], b[6..11];
    assert key == [0x37, 0xfa, 0x21, 0x3d] && data == [0x7f, 0x9f, 0x4d, 0x51, 0x58];
    assert Masked(data, key) == HELLO;
  }

  lemma ConsumedFits(b: seq<byte>)
    ensures Decode(b).consumed <= |b|
  {
  }

  const CLOSE_FRAME: seq<byte> := [0x88, 0x00]

  lemma CloseFrameIs()
    ensures Wire(Frame(0x88, None, [])) == CLOSE_FRAME
  {
    PlainBit(0);
    assert BigEndian.Octets(0, 0) == [];
  }

  lemma {:induction false} WireMore(fs: seq<Frame>, f: Frame)
    requires AreFrames(fs) && IsFrame(f)
    ensures AreFrames(fs + [f]) && WireAll(fs + [f]) == WireAll(fs) + Wire(f)
    decreases |fs|
  {
    if |fs| == 0 {
      assert (fs + [f])[1..] == [];
    } else {
      assert (fs + [f])[1..] == fs[1..] + [f];
      WireMore(fs[1..], f);
      Regroup(Wire(fs[0]), WireAll(fs[1..]), Wire(f));
    }
  }

  /** The connection once it speaks WebSocket. */
  class WsHandler {
    /** tcp_ is set. */
    var open: bool
    var dispose: bool
    /** The handler has deleted itself. */
    var deleted: bool
    /** What the delegate was told. */
    var frames: seq<seq<byte>>
    var written: seq<seq<byte>>
    /** The frames in what was written. */
    ghost var log: seq<Frame>

    /** What was written is the frames of `log`, and the handler does not delete itself while the connection is there. */
    ghost predicate Valid()
      reads this
    {
      AreFrames(log) && Flatten(written) == WireAll(log) && (deleted ==> !open)
    }

    constructor ()
      ensures Valid() && open && !dispose && !deleted && frames == [] && log == []
    {
      open, dispose, deleted := true, false, false;
      frames, written := [], [];
      log := [];
    }

    /** The peer reads the frames of `log`, and nothing else. */
    lemma PeerReads()
      requires Valid()
      ensures ParseAll(Flatten(written)) == Some(log)
    {
      ParseWireAll(log);
    }

    method OnEof()
      requires Valid()
      modifies `open, `deleted
      ensures Valid() && !open && deleted == (old(deleted) || dispose)
    {
      open := false;
      if dispose {
        deleted := true;
      }
    }

    /** WriteRaw with one frame. */
    method WriteFrame(octets: seq<byte>, ghost frame: Frame)
      requires Valid() && IsFrame(frame) && octets == Wire(frame)
      modifies `written, `log
      ensures Valid() && log == old(log) + [frame]
    {
      WireMore(log, frame);
      FlattenMore(written, octets);
      written := written + [octets];
      log := log + [frame];
    }

    method SendClose()
      requires Valid()
      modifies `written, `log
      ensures Valid() && log == old(log) + [Frame(0x88, None, [])]
    {
      CloseFrameIs();
      WriteFrame(CLOSE_FRAME, Frame(0x88, None, []));
    }

    /** A close frame has come. It is answered each time: the callback that would make a second one end the connection
        is never run. */
    method CloseFrameReceived()
      requires Valid()
      modifies `written, `log
      ensures Valid() && log == old(log) + [Frame(0x88, None, [])]
    {
      SendClose();
    }

    /** The owner lets go: the close frame is sent and the handler stays until the connection ends, if it has not yet. */
    method Shutdown()
      requires Valid()
      modifies `dispose, `deleted, `written, `log
      ensures Valid()
      ensures if open then dispose && deleted == old(deleted) && log == old(log) + [Frame(0x88, None, [])]
              else deleted && dispose == old(dispose) && log == old(log)
    {
      if open {
        dispose := true;
        SendClose();
      } else {
        deleted := true;
      }
    }

    /** A message to the client: one final text frame. */
    method Write(message: seq<byte>)
      requires Valid() && |message| < TWO_63
      modifies `written, `log
      ensures Valid() && log == old(log) + [TextFrame(message)]
    {
      var frame := EncodeFrame(message);
      WriteFrame(frame, TextFrame(message));
    }

    /** The first frame of the buffer. If the decoder goes on behind the end of the buffer, nothing is known but that no
        earlier payload is lost. */
    method ParseWsFrames(data: seq<byte>) returns (processed: int)
      requires Valid()
      modifies `open, `deleted, `written, `log, `frames
      ensures Valid() && processed <= |data| && old(frames) <= frames
      ensures var r := Read(data);
        Decode(data).result.FrameOverrun? ||
        if 0 < processed < |data| then
          var more := Read(data[processed..]);
          && open == old(open) && log == old(log)
          && frames + more.payloads == old(frames) + r.payloads && r.ending == more.ending && r.rest == more.rest
        else
          && !r.ending.Overrun? && Ended(r.ending, old(open), old(log)) && frames == old(frames) + r.payloads
          && r.rest == if processed > 0 then [] else data
    {
      ConsumedFits(data);
      var result, consumed, output, compressed := DecodeFrame(data);
      if result.FrameOverrun? {
        return 0;
      } else if compressed || result.FrameError? {
        OnEof();
        return 0;
      } else if result.FrameClose? {
        CloseFrameReceived();
        return 0;
      } else if result.FrameOk? {
        if 0 < consumed < |data| {
          Regroup(frames, [output], Read(data[consumed..]).payloads);
        }
        frames := frames + [output];
        return consumed;
      }
      return 0;
    }

    /** The connection after a read that ended so. */
    ghost predicate Ended(e: Ending, wasOpen: bool, had: seq<Frame>)
      reads this
    {
      match e
      case Hungry => open == wasOpen && log == had
      case Refused => !open && log == had
      case ClosedByPeer => open == wasOpen && log == had + [Frame(0x88, None, [])]
      case Overrun => true
    }

    /** One read from the connection; `rest` is what stays in the buffer. A read that overruns has delivered what comes
        before. */
    method OnData(data: seq<byte>) returns (rest: seq<byte>)
      requires Valid()
      modifies `open, `deleted, `written, `log, `frames
      ensures Valid()
      ensures var r := Read(data);
        && old(frames) + r.payloads <= frames
        && (!r.ending.Overrun? ==>
              frames == old(frames) + r.payloads && rest == r.rest && Ended(r.ending, old(open), old(log)))
    {
      rest := data;
      ghost var past := Decode(data).result.FrameOverrun?;
      var processed := ParseWsFrames(rest);
      if processed > 0 {
        rest := rest[processed..];
      }
      while processed > 0 && rest != []
        invariant Valid()
        invariant !past && 0 < processed && rest != [] ==> open == old(open) && log == old(log)
        invariant Going(Read(data), past, processed, rest, old(frames), old(open), old(log))
        decreases |rest| + if processed > 0 then 1 else 0
      {
        past := past || Decode(rest).result.FrameOverrun?;
        processed := ParseWsFrames(rest);
        if processed > 0 {
          rest := rest[processed..];
        }
      }
    }

    /** In the middle of a read: what has been delivered and what is still in the buffer make up the whole. */
    ghost predicate Going(goal: Reading, past: bool, processed: int, rest: seq<byte>, had: seq<seq<byte>>,
                          wasOpen: bool, wrote: seq<Frame>)
      reads this
    {
      if past then goal.ending.Overrun? && had + goal.payloads <= frames
      else if processed > 0 && rest != [] then
        var r := Read(rest);
        had + goal.payloads == frames + r.payloads && goal.rest == r.rest && goal.ending == r.ending
      else
        !goal.ending.Overrun? && frames == had + goal.payloads && rest == goal.rest && Ended(goal.ending, wasOpen, wrote)
    }
  }

  // ---------------------------------------------------------------- the handshake

  /** The GUID of section 4.2.2 of RFC 6455. */
  const GUID: seq<byte> := [
    0x32, 0x35, 0x38, 0x45, 0x41, 0x46, 0x41, 0x35, 0x2d, 0x45, 0x39, 0x31, 0x34, 0x2d, 0x34, 0x37, 0x44, 0x41, 0x2d,
    0x39, 0x35, 0x43, 0x41, 0x2d, 0x43, 0x35, 0x41, 0x42, 0x30, 0x44, 0x43, 0x38, 0x35, 0x42, 0x31, 0x31]

  /** generate_accept_string: 28 characters, the only ones that decode to the digest of the client's key and the GUID. */
  method GenerateAcceptString(clientKey: seq<byte>) returns (accept: seq<byte>)
    ensures |accept| == 28 && Base64.Decode(accept) == Some(Sha1Spec.Sha1(clientKey + GUID))
    ensures forall other :: Base64.Decode(other) == Some(Sha1Spec.Sha1(clientKey + GUID)) ==> other == accept
  {
    hide Base64.Encode, Base64.Decode, Sha1Spec.Sha1, Sha1Spec.Blocks, Sha1Spec.Padding;
    var ctx := new Sha1.Sha1Context();
    ctx.Update(clientKey + GUID);
    assert [] + (clientKey + GUID) == clientKey + GUID;
    var digest := new byte[20];
    ctx.Finish(digest);
    var buffer := new byte[28];
    ghost var d := digest[..];
    assert |d| == 20 && Base64.EncodedSize(20) == 28;
    var written := Base64.Base64Encode(digest[..], buffer);
    assert buffer[..28] == buffer[..];
    accept := buffer[..];
    Base64.RoundTrip(d);
    forall other | Base64.Decode(other) == Some(d) ensures other == accept {
      Base64.OnlyEncoding(other, d);
    }
  }
}
