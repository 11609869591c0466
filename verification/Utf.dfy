/** UTF-16 to UTF-8, unpaired surrogates included. */
module Utf {
  import opened Bytes

  type unit = bv16
  type point = bv32

  predicate IsHigh(u: unit) {
    0xD800 <= u < 0xDC00
  }

  predicate IsLow(u: unit) {
    0xDC00 <= u < 0xE000
  }

  // ---------------------------------------------------------------- what the two encodings mean

  /** Section 2.2 of RFC 2781: the code point of a surrogate pair. */
  function Join(high: unit, low: unit): point {
    0x10000 + (((high & 0x3ff) as point) << 10) + ((low & 0x3ff) as point)
  }

  predicate BeginsPair(s: seq<unit>) {
    |s| >= 2 && IsHigh(s[0]) && IsLow(s[1])
  }

  /** How many units the first code point takes. */
  function Width(s: seq<unit>): nat {
    if BeginsPair(s) then 2 else 1
  }

  /** The first code point; a surrogate outside a pair stands for itself. */
  function Head(s: seq<unit>): point
    requires |s| > 0
  {
    if BeginsPair(s) then Join(s[0], s[1]) else s[0] as point
  }

  /** The code points of a UTF-16 text. */
  function Points(s: seq<unit>): seq<point> {
    if |s| == 0 then [] else [Head(s)] + Points(s[Width(s)..])
  }

  function HighOf(p: point): unit {
    0xD800 | ((((p - 0x10000) >> 10) & 0x3ff) as unit)
  }

  function LowOf(p: point): unit {
    0xDC00 | (((p - 0x10000) & 0x3ff) as unit)
  }

  /** Section 2.1 of RFC 2781. */
  function Units(p: point): seq<unit> {
    if p < 0x10000 then [(p & 0xffff) as unit] else [HighOf(p), LowOf(p)]
  }

  function UnitsOf(s: seq<point>): seq<unit> {
    if |s| == 0 then [] else Units(s[0]) + UnitsOf(s[1..])
  }

  predicate IsPoint(p: point) {
    p < 0x110000
  }

  /** A continuation octet with the last six bits of a code point. */
  function Continued(p: point): byte {
    0x80 | ((p & 0x3f) as byte)
  }

  function First2(p: point): byte {
    0xc0 | (((p >> 6) & 0x1f) as byte)
  }

  function First3(p: point): byte {
    0xe0 | (((p >> 12) & 0xf) as byte)
  }

  function First4(p: point): byte {
    0xf0 | (((p >> 18) & 7) as byte)
  }

  /** Section 3 of RFC 3629: the bits of a code point over one to four octets. */
  function Utf8(p: point): seq<byte> {
    if p < 0x80 then [(p & 0x7f) as byte]
    else if p < 0x800 then [First2(p), Continued(p)]
    else if p < 0x10000 then [First3(p), Continued(p >> 6), Continued(p)]
    else [First4(p), Continued(p >> 12), Continued(p >> 6), Continued(p)]
  }

  function Utf8Of(s: seq<point>): seq<byte> {
    if |s| == 0 then [] else Utf8(s[0]) + Utf8Of(s[1..])
  }

  // ---------------------------------------------------------------- decoding

  predicate Tail(c: byte) {
    c & 0xc0 == 0x80
  }

  function Low6(c: byte): point {
    (c & 0x3f) as point
  }

  /** How many octets a first octet announces; 0 for none. */
  function Announced(c: byte): nat {
    if c < 0x80 then 1 else if c & 0xe0 == 0xc0 then 2 else if c & 0xf0 == 0xe0 then 3 else if c & 0xf8 == 0xf0 then 4 else 0
  }

  function Value2(a: byte, b: byte): point {
    (((a & 0x1f) as point) << 6) | Low6(b)
  }

  function Value3(a: byte, b: byte, c: byte): point {
    (((a & 0xf) as point) << 12) | (Low6(b) << 6) | Low6(c)
  }

  function Value4(a: byte, b: byte, c: byte, d: byte): point {
    (((a & 7) as point) << 18) | (Low6(b) << 12) | (Low6(c) << 6) | Low6(d)
  }

  /** The code point of `n` octets. */
  function Value(s: seq<byte>, n: nat): point
    requires 1 <= n <= 4 && n <= |s|
  {
    if n == 1 then s[0] as point
    else if n == 2 then Value2(s[0], s[1])
    else if n == 3 then Value3(s[0], s[1], s[2])
    else Value4(s[0], s[1], s[2], s[3])
  }

  /** The first code point: continuation octets where they are announced, and no longer form than needed. */
  predicate Leads(s: seq<byte>, n: nat) {
    && |s| > 0 && n == Announced(s[0]) && 1 <= n <= |s|
    && (n >= 2 ==> Tail(s[1])) && (n >= 3 ==> Tail(s[2])) && (n >= 4 ==> Tail(s[3]))
    && IsPoint(Value(s, n)) && |Utf8(Value(s, n))| == n
  }

  /** A UTF-8 decoder that lets surrogates through. */
  function Decode(s: seq<byte>): Option<seq<point>> {
    if |s| == 0 then Some([])
    else
      var n := Announced(s[0]);
      if !Leads(s, n) then None
      else
        var rest := Decode(s[n..]);
        if rest.None? then None else Some([Value(s, n)] + rest.value)
  }

  // ---------------------------------------------------------------- nothing is lost

  lemma OneBack(p: point)
    requires p < 0x80
    ensures var a := (p & 0x7f) as byte; Announced(a) == 1 && a as point == p
  {
  }

  lemma TwoBack(p: point)
    requires 0x80 <= p < 0x800
    ensures Announced(First2(p)) == 2 && Tail(Continued(p)) && Value2(First2(p), Continued(p)) == p
  {
  }

  lemma ThreeBack(p: point)
    requires 0x800 <= p < 0x10000
    ensures Announced(First3(p)) == 3 && Tail(Continued(p >> 6)) && Tail(Continued(p))
    ensures Value3(First3(p), Continued(p >> 6), Continued(p)) == p
  {
  }

  lemma FourBack(p: point)
    requires 0x10000 <= p < 0x110000
    ensures Announced(First4(p)) == 4 && Tail(Continued(p >> 12)) && Tail(Continued(p >> 6)) && Tail(Continued(p))
    ensures Value4(First4(p), Continued(p >> 12), Continued(p >> 6), Continued(p)) == p
  {
  }

  lemma PointBack(p: point, rest: seq<byte>)
    requires IsPoint(p)
    ensures var s := Utf8(p) + rest; var n := |Utf8(p)|;
      Announced(s[0]) == n && Leads(s, n) && Value(s, n) == p && s[n..] == rest
  {
    if p < 0x80 {
      OneBack(p);
    } else if p < 0x800 {
      TwoBack(p);
    } else if p < 0x10000 {
      ThreeBack(p);
    } else {
      FourBack(p);
    }
  }

  lemma {:induction false} PointsBack(s: seq<point>)
    requires ArePoints(s)
    ensures Decode(Utf8Of(s)) == Some(s)
    decreases |s|
  {
    if |s| > 0 {
      PointBack(s[0], Utf8Of(s[1..]));
      PointsBack(s[1..]);
      assert s == [s[0]] + s[1..];
    }
  }

  lemma JoinBack(high: unit, low: unit)
    requires IsHigh(high) && IsLow(low)
    ensures 0x10000 <= Join(high, low) < 0x110000
    ensures HighOf(Join(high, low)) == high && LowOf(Join(high, low)) == low
  {
  }

  lemma AloneBack(u: unit)
    ensures u as point < 0x10000 && ((u as point) & 0xffff) as unit == u
  {
  }

  lemma HeadBack(s: seq<unit>)
    requires |s| > 0
    ensures IsPoint(Head(s)) && Units(Head(s)) == s[..Width(s)]
  {
    if BeginsPair(s) {
      JoinBack(s[0], s[1]);
      assert s[..2] == [s[0], s[1]];
    } else {
      AloneBack(s[0]);
      assert s[..1] == [s[0]];
    }
  }

  predicate ArePoints(s: seq<point>) {
    forall i | 0 <= i < |s| :: IsPoint(s[i])
  }

  lemma {:induction false} UnitsBack(s: seq<unit>)
    ensures UnitsOf(Points(s)) == s && ArePoints(Points(s))
    decreases |s|
  {
    if |s| > 0 {
      var w := Width(s);
      HeadBack(s);
      UnitsBack(s[w..]);
      assert Points(s)[1..] == Points(s[w..]) && s == s[..w] + s[w..];
    }
  }

  /** A UTF-16 text comes back from its UTF-8 form, unpaired surrogates and all. */
  lemma Lossless(s: seq<unit>)
    ensures Decode(Utf8Of(Points(s))).Some? && UnitsOf(Decode(Utf8Of(Points(s))).value) == s
  {
    UnitsBack(s);
    PointsBack(Points(s));
  }

  predicate IsSurrogate(p: point) {
    0xD800 <= p < 0xE000
  }

  /** A well-formed text: surrogates come in pairs. */
  predicate WellFormed(s: seq<unit>) {
    forall i: nat | i < |s| :: WellAt(s, i)
  }

  predicate WellAt(s: seq<unit>, i: nat)
    requires i < |s|
  {
    && (IsHigh(s[i]) ==> i + 1 < |s| && IsLow(s[i + 1]))
    && (IsLow(s[i]) ==> i > 0 && IsHigh(s[i - 1]))
  }

  /** The same, pair by pair. */
  predicate Paired(s: seq<unit>) {
    if |s| == 0 then true
    else if BeginsPair(s) then Paired(s[2..])
    else !IsHigh(s[0]) && !IsLow(s[0]) && Paired(s[1..])
  }

  lemma WellTail(s: seq<unit>, k: nat, i: nat)
    requires 0 < k && k + i < |s| && !IsHigh(s[k - 1])
    ensures WellAt(s[k..], i) <==> WellAt(s, k + i)
  {
    assert s[k..][i] == s[k + i];
    assert i + 1 < |s[k..]| ==> s[k..][i + 1] == s[k + i + 1];
    assert i > 0 ==> s[k..][i - 1] == s[k + i - 1];
  }

  lemma WellSplit(s: seq<unit>, k: nat)
    requires 0 < k <= |s| && !IsHigh(s[k - 1])
    ensures WellFormed(s) <==> WellFormed(s[k..]) && forall i: nat | i < k :: WellAt(s, i)
  {
    forall i: nat | i < |s[k..]| ensures WellAt(s[k..], i) <==> WellAt(s, k + i) {
      WellTail(s, k, i);
    }
    assert forall i: nat | k <= i < |s| :: WellAt(s, i) <==> WellAt(s[k..], i - k) by {
      forall i: nat | k <= i < |s| ensures WellAt(s, i) <==> WellAt(s[k..], i - k) {
        WellTail(s, k, i - k);
      }
    }
  }

  lemma Disjoint(u: unit)
    ensures !(IsHigh(u) && IsLow(u))
  {
  }

  lemma {:induction false} PairedIsWellFormed(s: seq<unit>)
    ensures Paired(s) <==> WellFormed(s)
    decreases |s|
  {
    if |s| > 0 {
      Disjoint(s[0]);
      if BeginsPair(s) {
        Disjoint(s[1]);
        PairedIsWellFormed(s[2..]);
        WellSplit(s, 2);
        assert WellAt(s, 0) && WellAt(s, 1);
      } else {
        PairedIsWellFormed(s[1..]);
        assert WellAt(s, 0) <==> !IsHigh(s[0]) && !IsLow(s[0]);
        if !IsHigh(s[0]) {
          WellSplit(s, 1);
        }
      }
    }
  }

  /** No code point is a surrogate exactly if surrogates come in pairs. */
  lemma {:induction false} StandardIffPaired(s: seq<unit>)
    ensures NoSurrogate(Points(s)) <==> Paired(s)
    decreases |s|
  {
    if |s| > 0 {
      StandardIffPaired(s[Width(s)..]);
      HeadSurrogate(s);
      FirstPoint(Head(s), Points(s[Width(s)..]));
    }
  }

  lemma HeadSurrogate(s: seq<unit>)
    requires |s| > 0
    ensures IsSurrogate(Head(s)) <==> !BeginsPair(s) && (IsHigh(s[0]) || IsLow(s[0]))
  {
    if BeginsPair(s) {
      JoinSurrogate(s[0], s[1]);
    } else {
      AloneSurrogate(s[0]);
    }
  }

  predicate NoSurrogate(s: seq<point>) {
    forall i | 0 <= i < |s| :: !IsSurrogate(s[i])
  }

  lemma FirstPoint(p: point, rest: seq<point>)
    ensures NoSurrogate([p] + rest) <==> !IsSurrogate(p) && NoSurrogate(rest)
  {
    var s := [p] + rest;
    assert s[0] == p && forall i | 0 <= i < |rest| :: s[i + 1] == rest[i];
  }

  lemma JoinSurrogate(high: unit, low: unit)
    requires IsHigh(high) && IsLow(low)
    ensures !IsSurrogate(Join(high, low))
  {
    JoinBack(high, low);
  }

  lemma AloneSurrogate(u: unit)
    ensures IsSurrogate(u as point) <==> IsHigh(u) || IsLow(u)
  {
  }

  /** Octets that section 3 of RFC 3629 allows: they decode, and not to a surrogate. */
  predicate IsStandard(s: seq<byte>) {
    Decode(s).Some? && NoSurrogate(Decode(s).value)
  }

  /** The octets are UTF-8 as section 3 of RFC 3629 defines it exactly if the text is well-formed. */
  lemma StandardIffWellFormed(s: seq<unit>)
    ensures IsStandard(Utf8Of(Points(s))) <==> WellFormed(s)
  {
    UnitsBack(s);
    PointsBack(Points(s));
    StandardIffPaired(s);
    PairedIsWellFormed(s);
  }

  /** The octets give the text back, and a standard decoder takes them exactly if the text is well-formed. */
  ghost predicate IsFormOf(utf8: seq<byte>, s: seq<unit>) {
    && Decode(utf8).Some? && UnitsOf(Decode(utf8).value) == s
    && (IsStandard(utf8) <==> WellFormed(s))
  }

  // "e" with an acute accent, the euro sign, and the emoji U+1F600, whose code point takes two units
  const SAMPLE: seq<unit> := [0x00e9, 0x20ac, 0xd83d, 0xde00]

  /** The UTF-8 forms of some text, and of a surrogate without its partner. */
  lemma SampleForms()
    ensures Utf8Of(Points(SAMPLE)) == [0xc3, 0xa9, 0xe2, 0x82, 0xac, 0xf0, 0x9f, 0x98, 0x80]
    ensures Utf8Of(Points([0xd800])) == [0xed, 0xa0, 0x80]
  {
    SamplePoints();
    assert Utf8(0xe9) == [0xc3, 0xa9] && Utf8(0x20ac) == [0xe2, 0x82, 0xac];
    assert Utf8(0x1f600) == [0xf0, 0x9f, 0x98, 0x80] && Utf8(0xd800) == [0xed, 0xa0, 0x80];
    hide Utf8;
    OneMorePoint(0x1f600, []);
    OneMorePoint(0x20ac, [0x1f600]);
    OneMorePoint(0xe9, [0x20ac, 0x1f600]);
    OneMorePoint(0xd800, []);
  }

  lemma OneMorePoint(p: point, more: seq<point>)
    ensures Utf8Of([p] + more) == Utf8(p) + Utf8Of(more)
  {
    hide Utf8;
    assert ([p] + more)[1..] == more;
  }

  lemma SamplePoints()
    ensures Points(SAMPLE) == [0xe9] + ([0x20ac] + ([0x1f600] + [])) && Points([0xd800]) == [0xd800] + []
  {
    var s, t, u := SAMPLE, SAMPLE[1..], SAMPLE[2..];
    assert t == [0x20ac, 0xd83d, 0xde00] && u == [0xd83d, 0xde00] && t[1..] == u && u[2..] == [];
    assert Join(0xd83d, 0xde00) == 0x1f600;
    assert Points(u) == [0x1f600] + Points([]);
    assert Points(t) == [0x20ac] + Points(u);
    assert Points(s) == [0xe9] + Points(t);
    assert [0xd800 as unit][1..] == [];
  }

  lemma FormBack(s: seq<unit>)
    ensures IsFormOf(Utf8Of(Points(s)), s)
  {
    Lossless(s);
    StandardIffWellFormed(s);
  }

  // ---------------------------------------------------------------- the converter

  /** A narrowing conversion to char. */
  function Truncate(x: bv16): byte {
    (x & 0xff) as byte
  }

  method OneOctet(ch: unit) returns (x: seq<byte>)
    requires ch < 0x80
    ensures x == Utf8(ch as point)
  {
    x := [Truncate(ch & 0x7f)];
  }

  method TwoOctets(ch: unit) returns (x: seq<byte>)
    requires 0x80 <= ch < 0x800
    ensures x == Utf8(ch as point)
  {
    x := [Truncate(0xc0 | (ch >> 6)), Truncate(0x80 | (ch & 0x3f))];
  }

  method ThreeOctets(ch: unit) returns (x: seq<byte>)
    requires 0x800 <= ch
    ensures x == Utf8(ch as point)
  {
    x := [Truncate(0xe0 | (ch >> 12)), Truncate(0x80 | ((ch >> 6) & 0x3f)), Truncate(0x80 | (ch & 0x3f))];
  }

  method FourOctets(ch: unit, ch2: unit) returns (x: seq<byte>)
    requires IsHigh(ch) && IsLow(ch2)
    ensures x == Utf8(Join(ch, ch2))
  {
    JoinBack(ch, ch2);
    var t := Truncate(((ch >> 6) & 0x0f) + 1);
    x := [0xf0 | (t >> 2), 0x80 | ((t & 0x03) << 4) | Truncate((ch >> 2) & 0x0f),
          Truncate(0x80 | ((ch & 0x03) << 4) | ((ch2 >> 6) & 0x0f)), Truncate(0x80 | (ch2 & 0x3f))];
  }

  const UINT32: nat := 0x1_0000_0000

  /** Adding to a uint32_t. */
  method Add32(x: nat, n: nat) returns (sum: nat)
    requires x < UINT32 && n <= 4
    ensures sum == if x + n < UINT32 then x + n else x + n - UINT32
  {
    sum := (x + n) % UINT32;
  }

  /** The encodings of the ends of a text, from each index on. */
  ghost predicate AreEnds(s: seq<unit>, ends: seq<seq<byte>>) {
    |ends| == |s| + 1 && forall i | 0 <= i <= |s| :: IsEnd(s, ends, i)
  }

  ghost predicate IsEnd(s: seq<unit>, ends: seq<seq<byte>>, i: nat)
    requires i <= |s| && i < |ends|
  {
    ends[i] == Utf8Of(Points(s[i..]))
  }

  ghost function Ends(s: seq<unit>): (ends: seq<seq<byte>>)
    ensures AreEnds(s, ends) && ends[0] == Utf8Of(Points(s)) && ends[|s|] == []
  {
    var ends := seq(|s| + 1, i requires 0 <= i <= |s| => Utf8Of(Points(s[i..])));
    assert IsEnd(s, ends, 0) && IsEnd(s, ends, |s|) && s[0..] == s;
    ends
  }

  /** How many octets the code point at `i` takes, and where the next one is. */
  method CountPoint(s: seq<unit>, i: nat, ghost ends: seq<seq<byte>>) returns (octets: nat, next: nat)
    requires i < |s| && AreEnds(s, ends)
    ensures i < next <= |s| && octets <= 4 && |ends[i]| == octets + |ends[next]|
  {
    var ch := s[i];
    AtRest(s, i);
    HeadLength(s[i..]);
    EndsAt(s, ends, i);
    next := i + 1;
    if ch < 0x80 {
      octets := 1;
    } else if ch < 0x800 {
      octets := 2;
    } else if ch >= 0xD800 && ch < 0xDC00 && next < |s| && s[next] >= 0xDC00 && s[next] < 0xE000 {
      octets := 4;
      next := next + 1;
    } else {
      octets := 3;
    }
  }

  /** utf16toUTF8Length. It counts in 32 bits. */
  method Utf16ToUtf8Length(s: seq<unit>) returns (length: nat)
    ensures length == |Utf8Of(Points(s))| % UINT32
  {
    length := 0;
    var i := 0;
    ghost var lost: nat := 0;
    ghost var ends := Ends(s);
    while i < |s|
      invariant 0 <= i <= |s| && length < UINT32 && lost % UINT32 == 0
      invariant lost + length + |ends[i]| == |ends[0]|
    {
      var octets;
      octets, i := CountPoint(s, i, ends);
      lost := Wraps(lost, length, octets);
      length := Add32(length, octets);
    }
    WholeTurns(lost, length);
  }

  /** What a sum of 32 bits has lost in all. */
  ghost function Wraps(lost: nat, x: nat, y: nat): (more: nat)
    requires x < UINT32 && y < UINT32 && lost % UINT32 == 0
    ensures more % UINT32 == 0 && more + (x + y) % UINT32 == lost + x + y
  {
    if x + y < UINT32 then lost else lost + UINT32
  }

  lemma WholeTurns(lost: nat, length: nat)
    requires lost % UINT32 == 0 && length < UINT32
    ensures (lost + length) % UINT32 == length
  {
  }

  /** The first code point of a text. */
  lemma NextPoint(s: seq<unit>)
    requires |s| > 0
    ensures Utf8Of(Points(s)) == Utf8(Head(s)) + Utf8Of(Points(s[Width(s)..]))
  {
    assert Points(s)[1..] == Points(s[Width(s)..]);
  }

  lemma HeadLength(s: seq<unit>)
    requires |s| > 0
    ensures |Utf8(Head(s))| == if s[0] < 0x80 then 1 else if s[0] < 0x800 then 2 else if BeginsPair(s) then 4 else 3
  {
    if BeginsPair(s) {
      JoinBack(s[0], s[1]);
    }
  }

  lemma EndsAt(s: seq<unit>, ends: seq<seq<byte>>, i: nat)
    requires i < |s| && AreEnds(s, ends)
    ensures ends[i] == Utf8(Head(s[i..])) + ends[i + Width(s[i..])]
  {
    var rest := s[i..];
    assert rest[Width(rest)..] == s[i + Width(rest)..];
    NextPoint(rest);
    assert IsEnd(s, ends, i) && IsEnd(s, ends, i + Width(rest));
  }

  lemma AtRest(s: seq<unit>, i: nat)
    requires i < |s|
    ensures var rest := s[i..];
      && rest[0] == s[i] && (BeginsPair(rest) <==> i + 1 < |s| && IsHigh(s[i]) && IsLow(s[i + 1]))
      && Head(rest) == (if BeginsPair(rest) then Join(s[i], s[i + 1]) else s[i] as point)
  {
    assert i + 1 < |s| ==> s[i..][1] == s[i + 1];
  }

  method Put(dst: array<byte>, k: nat, x: seq<byte>, ghost whole: seq<byte>, ghost rest: seq<byte>)
    requires k + |x| <= dst.Length && dst[..k] + (x + rest) == whole
    modifies dst
    ensures dst[..k + |x|] + rest == whole
  {
    ghost var before := dst[..k];
    var i := 0;
    while i < |x|
      invariant 0 <= i <= |x| && dst[..k] == before && dst[k..k + i] == x[..i]
    {
      dst[k + i] := x[i];
      i := i + 1;
    }
    assert dst[..k + |x|] == before + x;
  }

  /** The first code point of a text's end, when it is a unit or a pair. */
  lemma UnitEnd(s: seq<unit>, ends: seq<seq<byte>>, i: nat, ch: unit, x: seq<byte>)
    requires i < |s| && AreEnds(s, ends) && ch == s[i] && x == Utf8(ch as point)
    requires !(IsHigh(ch) && i + 1 < |s| && IsLow(s[i + 1]))
    ensures ends[i] == x + ends[i + 1]
  {
    AtRest(s, i);
    EndsAt(s, ends, i);
  }

  lemma PairEnd(s: seq<unit>, ends: seq<seq<byte>>, i: nat, x: seq<byte>)
    requires i + 1 < |s| && AreEnds(s, ends) && IsHigh(s[i]) && IsLow(s[i + 1]) && x == Utf8(Join(s[i], s[i + 1]))
    ensures ends[i] == x + ends[i + 2]
  {
    AtRest(s, i);
    EndsAt(s, ends, i);
  }

  method OneAt(s: seq<unit>, i: nat, ghost ends: seq<seq<byte>>) returns (x: seq<byte>)
    requires i < |s| && AreEnds(s, ends) && s[i] < 0x80
    ensures ends[i] == x + ends[i + 1]
  {
    var ch := s[i];
    x := OneOctet(ch);
    UnitEnd(s, ends, i, ch, x);
  }

  method TwoAt(s: seq<unit>, i: nat, ghost ends: seq<seq<byte>>) returns (x: seq<byte>)
    requires i < |s| && AreEnds(s, ends) && 0x80 <= s[i] < 0x800
    ensures ends[i] == x + ends[i + 1]
  {
    var ch := s[i];
    x := TwoOctets(ch);
    UnitEnd(s, ends, i, ch, x);
  }

  method ThreeAt(s: seq<unit>, i: nat, ghost ends: seq<seq<byte>>) returns (x: seq<byte>)
    requires i < |s| && AreEnds(s, ends) && 0x800 <= s[i] && !(IsHigh(s[i]) && i + 1 < |s| && IsLow(s[i + 1]))
    ensures ends[i] == x + ends[i + 1]
  {
    var ch := s[i];
    x := ThreeOctets(ch);
    UnitEnd(s, ends, i, ch, x);
  }

  method FourAt(s: seq<unit>, i: nat, ghost ends: seq<seq<byte>>) returns (x: seq<byte>)
    requires i + 1 < |s| && AreEnds(s, ends) && IsHigh(s[i]) && IsLow(s[i + 1])
    ensures ends[i] == x + ends[i + 2]
  {
    x := FourOctets(s[i], s[i + 1]);
    PairEnd(s, ends, i, x);
  }

  /** The octets of the code point at `i`, and where the next one is. */
  method EncodeAt(s: seq<unit>, i: nat, ghost ends: seq<seq<byte>>) returns (x: seq<byte>, next: nat)
    requires i < |s| && AreEnds(s, ends)
    ensures i < next <= |s| && ends[i] == x + ends[next]
  {
    var ch := s[i];
    next := i + 1;
    if ch < 0x80 {
      x := OneAt(s, i, ends);
    } else if ch < 0x800 {
      x := TwoAt(s, i, ends);
    } else if ch >= 0xD800 && ch < 0xDC00 && next < |s| && s[next] >= 0xDC00 && s[next] < 0xE000 {
      x := FourAt(s, i, ends);
      next := next + 1;
    } else {
      x := ThreeAt(s, i, ends);
    }
  }

  /** One code point goes into the buffer, behind the `k` octets that are there. */
  method PutAt(s: seq<unit>, i: nat, dst: array<byte>, k: nat, ghost ends: seq<seq<byte>>) returns (next: nat, more: nat)
    requires i < |s| && AreEnds(s, ends) && k <= dst.Length == |ends[0]| && dst[..k] + ends[i] == ends[0]
    modifies dst
    ensures i < next <= |s| && k <= more <= dst.Length && dst[..more] + ends[next] == ends[0]
  {
    assert |ends| == |s| + 1;
    hide AreEnds;
    var x;
    x, next := EncodeAt(s, i, ends);
    assert |dst[..k]| + (|x| + |ends[next]|) == |ends[0]|;
    Put(dst, k, x, ends[0], ends[next]);
    more := k + |x|;
  }

  lemma FullIs(x: seq<byte>, k: nat, whole: seq<byte>, rest: seq<byte>)
    requires k <= |x| == |whole| && x[..k] + rest == whole && rest == []
    ensures x == whole
  {
    assert |x[..k]| == |whole|;
  }

  /** utf16toUTF8, for results whose length fits 32 bits: it fills exactly the length counted beforehand. */
  method Utf16ToUtf8(s: seq<unit>) returns (utf8: seq<byte>)
    requires |Utf8Of(Points(s))| < UINT32
    ensures utf8 == Utf8Of(Points(s))
    ensures IsFormOf(utf8, s)
  {
    if |s| == 0 {
      FormBack(s);
      return [];
    }
    ghost var ends := Ends(s);
    assert |ends| == |s| + 1;
    hide Utf8Of, Points, AreEnds, IsFormOf;
    var length := Utf16ToUtf8Length(s);
    var dst := new byte[length];
    var i, k := 0, 0;
    assert dst[..0] + ends[0] == ends[0];
    while i < |s|
      invariant 0 <= i <= |s| && 0 <= k <= dst.Length == |ends[0]|
      invariant dst[..k] + ends[i] == ends[0]
    {
      i, k := PutAt(s, i, dst, k, ends);
    }
    utf8 := dst[..];
    FullIs(utf8, k, ends[0], ends[|s|]);
    FormBack(s);
  }
}
