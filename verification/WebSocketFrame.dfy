/** Frames as sections 5.2 and 5.3 of RFC 6455 define them, for both directions. */
module WebSocketFrame {
  import opened Bytes
  import opened BigEndian

  /** A frame; its first octet holds FIN, three reserved bits and the opcode. */
  datatype Frame = Frame(first: byte, key: Option<seq<byte>>, payload: seq<byte>) {
    predicate Rsv1() {
      first & 0x40 != 0
    }

    function Opcode(): byte {
      first & 0xf
    }
  }

  const TEXT: byte := 0x1
  const CLOSE: byte := 0x8
  const TWO_63: nat := 0x8000_0000_0000_0000

  predicate IsKey(key: seq<byte>) {
    |key| == 4
  }

  predicate IsFrame(f: Frame) {
    (f.key.Some? ==> IsKey(f.key.value)) && |f.payload| < TWO_63
  }

  function Bit(b: bool, mask: byte): byte {
    if b then mask else 0
  }

  /** How many octets a payload length takes behind the seven bits: as few as possible. */
  function Extended(n: nat): (k: nat)
    ensures k <= 8
  {
    if n <= 125 then 0 else if n <= 0xffff then 2 else 8
  }

  /** The seven bits. */
  function Length7(n: nat): byte {
    if Extended(n) == 0 then Octet(n) else if Extended(n) == 2 then 126 else 127
  }

  /** Each octet of the payload against an octet of the key. */
  function Masked(payload: seq<byte>, key: seq<byte>): (r: seq<byte>)
    requires IsKey(key)
    ensures |r| == |payload|
  {
    seq(|payload|, i requires 0 <= i < |payload| => payload[i] ^ key[i % 4])
  }

  function Head(f: Frame): (s: seq<byte>)
    ensures |s| == 2 + Extended(|f.payload|)
  {
    [f.first, Bit(f.key.Some?, 0x80) | Length7(|f.payload|)] + Octets(|f.payload|, Extended(|f.payload|))
  }

  /** A frame on the wire. */
  function Wire(f: Frame): (s: seq<byte>)
    requires IsFrame(f)
    ensures |s| == 2 + Extended(|f.payload|) + (if f.key.Some? then 4 else 0) + |f.payload|
  {
    Head(f) + if f.key.Some? then f.key.value + Masked(f.payload, f.key.value) else f.payload
  }

  // ---------------------------------------------------------------- reading a frame

  /** How many octets the seven bits announce. */
  function Announced(length7: byte): (k: nat)
    ensures k <= 8
  {
    if length7 <= 125 then 0 else if length7 == 126 then 2 else 8
  }

  /** The payload length, seven bits or more. */
  function LengthAt(s: seq<byte>): nat
    requires |s| >= 2 && |s| >= 2 + Announced(s[1] & 0x7f)
  {
    var k := Announced(s[1] & 0x7f);
    if k == 0 then (s[1] & 0x7f) as nat else Number(s[2..2 + k])
  }

  /** A frame whose payload is the `n` octets at `at`, behind its key. */
  function MaskedAt(s: seq<byte>, at: nat, n: nat): (Frame, seq<byte>)
    requires 6 <= at && at + n <= |s|
  {
    (Frame(s[0], Some(s[at - 4..at]), Masked(s[at..at + n], s[at - 4..at])), s[at + n..])
  }

  function UnmaskedAt(s: seq<byte>, at: nat, n: nat): (Frame, seq<byte>)
    requires 2 <= at && at + n <= |s|
  {
    (Frame(s[0], None, s[at..at + n]), s[at + n..])
  }

  /** The first frame of `s` and what follows, if there is a whole frame whose length is written in its shortest form. */
  function Parse(s: seq<byte>): Option<(Frame, seq<byte>)> {
    if |s| < 2 || |s| < 2 + Announced(s[1] & 0x7f) then None
    else
      var k, n := Announced(s[1] & 0x7f), LengthAt(s);
      if n >= TWO_63 || Extended(n) != k then None
      else if s[1] & 0x80 != 0 then
        if |s| < 6 + k + n then None else Some(MaskedAt(s, 6 + k, n))
      else
        if |s| < 2 + k + n then None else Some(UnmaskedAt(s, 2 + k, n))
  }

  // ---------------------------------------------------------------- the two are inverse

  lemma SecondBits(masked: bool, length7: byte)
    requires length7 < 128
    ensures var o := Bit(masked, 0x80) | length7; o & 0x7f == length7 && (o & 0x80 != 0 <==> masked)
  {
  }

  lemma SecondBack(o: byte)
    ensures o & 0x7f < 128 && Bit(o & 0x80 != 0, 0x80) | (o & 0x7f) == o
  {
  }

  lemma Length7Is(n: nat)
    ensures Length7(n) < 128 && Announced(Length7(n)) == Extended(n)
    ensures Extended(n) == 0 ==> Length7(n) as nat == n
  {
    if Extended(n) == 0 {
      SameOrder(Octet(n), 125);
      SameOrder(125, Octet(n));
    }
  }

  lemma Unmasked(payload: seq<byte>, key: seq<byte>)
    requires IsKey(key)
    ensures Masked(Masked(payload, key), key) == payload
  {
    var m := Masked(payload, key);
    forall i | 0 <= i < |payload| ensures Masked(m, key)[i] == payload[i] {
      TwiceXor(payload[i], key[i % 4]);
    }
  }

  lemma TwiceXor(x: byte, k: byte)
    ensures x ^ k ^ k == x
  {
  }

  lemma HeadBack(f: Frame, rest: seq<byte>)
    requires IsFrame(f)
    ensures var s := Head(f) + rest; var n := |f.payload|;
      && s[0] == f.first && Announced(s[1] & 0x7f) == Extended(n) && LengthAt(s) == n
      && (s[1] & 0x80 != 0 <==> f.key.Some?)
  {
    var s, n := Head(f) + rest, |f.payload|;
    Length7Is(n);
    SecondBits(f.key.Some?, Length7(n));
    Powers();
    if Extended(n) != 0 {
      assert s[2..2 + Extended(n)] == Octets(n, Extended(n));
      NumberBack(n, Extended(n));
    }
  }

  lemma Slices(a: seq<byte>, b: seq<byte>, c: seq<byte>, d: seq<byte>)
    ensures var s := a + b + c + d; var i, j, k := |a|, |a| + |b|, |a| + |b| + |c|;
      |s| == k + |d| && s[..i] == a && s[i..j] == b && s[j..k] == c && s[k..] == d
  {
  }

  lemma ParseMasked(f: Frame, rest: seq<byte>, s: seq<byte>)
    requires IsFrame(f) && f.key.Some?
    requires s == Head(f) + f.key.value + Masked(f.payload, f.key.value) + rest
    ensures Parse(s) == Some((f, rest))
  {
    var tail := f.key.value + Masked(f.payload, f.key.value) + rest;
    assert s == Head(f) + tail;
    HeadBack(f, tail);
    Slices(Head(f), f.key.value, Masked(f.payload, f.key.value), rest);
    Unmasked(f.payload, f.key.value);
  }

  lemma Middle(a: seq<byte>, b: seq<byte>, c: seq<byte>)
    ensures var s := a + (b + c); s[|a|..|a| + |b|] == b && s[|a| + |b|..] == c
  {
  }

  lemma ParseUnmasked(f: Frame, rest: seq<byte>, s: seq<byte>)
    requires IsFrame(f) && f.key.None? && s == Head(f) + (f.payload + rest)
    ensures Parse(s) == Some((f, rest))
  {
    HeadBack(f, f.payload + rest);
    Middle(Head(f), f.payload, rest);
  }

  /** Reading back a frame, whatever follows it. */
  lemma ParseWire(f: Frame, rest: seq<byte>)
    requires IsFrame(f)
    ensures Parse(Wire(f) + rest) == Some((f, rest))
  {
    if f.key.Some? {
      Regroup(Head(f), f.key.value, Masked(f.payload, f.key.value));
      ParseMasked(f, rest, Wire(f) + rest);
    } else {
      Regroup(Head(f), f.payload, rest);
      ParseUnmasked(f, rest, Wire(f) + rest);
    }
  }

  lemma HeadOnly(f: Frame, s: seq<byte>)
    requires |s| >= 2 && |s| >= 2 + Announced(s[1] & 0x7f)
    requires f.first == s[0] && (f.key.Some? <==> s[1] & 0x80 != 0)
    requires LengthAt(s) == |f.payload| && Extended(|f.payload|) == Announced(s[1] & 0x7f)
    ensures Head(f) == s[..2 + Extended(|f.payload|)]
  {
    var n, k := |f.payload|, Extended(|f.payload|);
    SecondBack(s[1]);
    if k == 0 {
      OctetBack(s[1] & 0x7f);
    } else {
      OctetsBack(s[2..2 + k]);
      assert s[..2 + k] == [s[0], s[1]] + s[2..2 + k];
    }
    assert Length7(n) == s[1] & 0x7f;
  }

  lemma MaskedOnly(s: seq<byte>, n: nat)
    requires |s| >= 2 && |s| >= 6 + Announced(s[1] & 0x7f) + n && LengthAt(s) == n < TWO_63
    requires Extended(n) == Announced(s[1] & 0x7f) && s[1] & 0x80 != 0
    ensures var (f, rest) := MaskedAt(s, 6 + Announced(s[1] & 0x7f), n); IsFrame(f) && s == Wire(f) + rest
  {
    var at := 6 + Extended(n);
    var key, data := s[at - 4..at], s[at..at + n];
    var f := Frame(s[0], Some(key), Masked(data, key));
    HeadOnly(f, s);
    Unmasked(data, key);
    Glue(s, at - 4, at, at + n, key, data);
  }

  lemma UnmaskedOnly(s: seq<byte>, n: nat)
    requires |s| >= 2 && |s| >= 2 + Announced(s[1] & 0x7f) + n && LengthAt(s) == n < TWO_63
    requires Extended(n) == Announced(s[1] & 0x7f) && s[1] & 0x80 == 0
    ensures var (f, rest) := UnmaskedAt(s, 2 + Announced(s[1] & 0x7f), n); IsFrame(f) && s == Wire(f) + rest
  {
    var at := 2 + Extended(n);
    HeadOnly(Frame(s[0], None, s[at..at + n]), s);
    GlueTwo(s, at, at + n);
  }

  /** Nothing else reads as a frame: the wire form is the only one, and so the shortest. */
  lemma WireParse(s: seq<byte>)
    requires Parse(s).Some?
    ensures var (f, rest) := Parse(s).value; IsFrame(f) && s == Wire(f) + rest
  {
    if s[1] & 0x80 != 0 {
      MaskedOnly(s, LengthAt(s));
    } else {
      UnmaskedOnly(s, LengthAt(s));
    }
  }

  lemma GlueTwo(s: seq<byte>, i: nat, k: nat)
    requires i <= k <= |s|
    ensures s == s[..i] + s[i..k] + s[k..]
  {
  }

  lemma Glue(s: seq<byte>, i: nat, j: nat, k: nat, b: seq<byte>, c: seq<byte>)
    requires i <= j <= k <= |s| && b == s[i..j] && c == s[j..k]
    ensures s == s[..i] + (b + c) + s[k..]
  {
  }

  // ---------------------------------------------------------------- octet by octet

  /** Where the key of a masked frame begins, and the payload of any other. */
  function KeyAt(s: seq<byte>): nat
    requires |s| >= 2
  {
    if s[1] & 0x7f == 127 then 10 else if s[1] & 0x7f == 126 then 4 else 2
  }

  lemma HeadOctets(f: Frame, tail: seq<byte>)
    requires IsFrame(f)
    ensures var s, n := Head(f) + tail, |f.payload|; var at := KeyAt(s);
      && s[0] == f.first && (s[1] & 0x80 != 0 <==> f.key.Some?) && |Head(f)| == at
      && (at == if n <= 125 then 2 else if n <= 0xffff then 4 else 10)
      && (n == if at == 2 then (s[1] & 0x7f) as nat else Number(s[2..at]))
  {
    HeadBack(f, tail);
    var s, n := Head(f) + tail, |f.payload|;
    Length7Is(n);
    SecondBits(f.key.Some?, Length7(n));
    AnnouncedIs(s[1] & 0x7f);
  }

  lemma Behind(a: seq<byte>, b: seq<byte>)
    ensures (a + b)[|a|..] == b && forall i | 0 <= i < |b| :: (a + b)[|a| + i] == b[i]
  {
  }

  /** What is on the wire at each position: the first octet; the mask bit and the length; the key; the payload, each octet
      against its octet of the key. */
  lemma WireOctets(f: Frame)
    requires IsFrame(f)
    ensures var s, at, n := Wire(f), KeyAt(Wire(f)), |f.payload|;
      && s[0] == f.first && (s[1] & 0x80 != 0 <==> f.key.Some?)
      && (at == if n <= 125 then 2 else if n <= 0xffff then 4 else 10)
      && (n == if at == 2 then (s[1] & 0x7f) as nat else Number(s[2..at]))
      && (f.key.Some? ==>
            && |s| == at + 4 + n && s[at..at + 4] == f.key.value
            && forall i | 0 <= i < n :: s[at + 4 + i] == f.payload[i] ^ f.key.value[i % 4])
      && (f.key.None? ==> s[at..] == f.payload)
  {
    var n := |f.payload|;
    if f.key.Some? {
      var data := Masked(f.payload, f.key.value);
      HeadOctets(f, f.key.value + data);
      assert forall i | 0 <= i < n :: data[i] == f.payload[i] ^ f.key.value[i % 4];
      hide Head, Masked, Number, KeyAt;
      Middle(Head(f), f.key.value, data);
      Behind(Head(f) + f.key.value, data);
    } else {
      HeadOctets(f, f.payload);
      hide Head, Number, KeyAt;
      Behind(Head(f), f.payload);
    }
  }

  lemma AnnouncedIs(length7: byte)
    requires length7 < 128
    ensures Announced(length7) == if length7 == 127 then 8 else if length7 == 126 then 2 else 0
  {
  }

  // ---------------------------------------------------------------- lists of frames

  predicate AreFrames(fs: seq<Frame>) {
    forall i | 0 <= i < |fs| :: IsFrame(fs[i])
  }

  function WireAll(fs: seq<Frame>): seq<byte>
    requires AreFrames(fs)
  {
    if |fs| == 0 then [] else Wire(fs[0]) + WireAll(fs[1..])
  }

  /** All the frames of `s`, if frames are all it holds. */
  function ParseAll(s: seq<byte>): Option<seq<Frame>>
    decreases |s|
  {
    if |s| == 0 then Some([])
    else if Parse(s).None? then None
    else
      var (f, rest) := Parse(s).value;
      var more := if |rest| < |s| then ParseAll(rest) else None;
      if more.None? then None else Some([f] + more.value)
  }

  /** Frames written one after the other read back as themselves, and in no other way. */
  lemma {:induction false} ParseWireAll(fs: seq<Frame>)
    requires AreFrames(fs)
    ensures ParseAll(WireAll(fs)) == Some(fs)
    decreases |fs|
  {
    hide Parse, Wire;
    if |fs| > 0 {
      ParseWire(fs[0], WireAll(fs[1..]));
      ParseWireAll(fs[1..]);
      assert fs == [fs[0]] + fs[1..];
    }
  }
}
