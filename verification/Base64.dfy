/** Base 64 as section 4 of RFC 4648 defines it, and the encoder. */
module Base64 {
  import opened Bytes

  const PAD: byte := 0x3d

  /** The alphabet: A to Z, a to z, 0 to 9, plus and slash. */
  function Letter(v: byte): byte {
    if v < 26 then 0x41 + v else if v < 52 then 0x61 + (v - 26) else if v < 62 then 0x30 + (v - 52)
    else if v == 62 then 0x2b else 0x2f
  }

  function ValueOf(c: byte): Option<byte> {
    if 0x41 <= c <= 0x5a then Some(c - 0x41) else if 0x61 <= c <= 0x7a then Some(c - 0x61 + 26)
    else if 0x30 <= c <= 0x39 then Some(c - 0x30 + 52) else if c == 0x2b then Some(62)
    else if c == 0x2f then Some(63) else None
  }

  /** Three runs of letters and digits, and two marks. */
  lemma Alphabet(v: byte)
    ensures Letter(0) == 0x41 && Letter(25) == 0x5a && Letter(26) == 0x61 && Letter(51) == 0x7a
    ensures Letter(52) == 0x30 && Letter(61) == 0x39 && Letter(62) == 0x2b && Letter(63) == 0x2f
    ensures v < 61 && v != 25 && v != 51 ==> Letter(v + 1) == Letter(v) + 1
  {
  }

  // ---------------------------------------------------------------- decoding

  /** Four letters are three octets. */
  function Octets(p: byte, q: byte, r: byte, s: byte): seq<byte> {
    [(p << 2) | (q >> 4), (q << 4) | (r >> 2), (r << 6) | s]
  }

  /** The last four characters: padding stands for one octet or two missing, and the bits it leaves over are zero. */
  function DecodeLast(s: seq<byte>): Option<seq<byte>>
    requires |s| == 4
  {
    var p, q, r, t := ValueOf(s[0]), ValueOf(s[1]), ValueOf(s[2]), ValueOf(s[3]);
    if p.None? || q.None? then None
    else if s[2] == PAD && s[3] == PAD && q.value & 0xf == 0 then Some(Octets(p.value, q.value, 0, 0)[..1])
    else if r.None? then None
    else if s[3] == PAD && r.value & 3 == 0 then Some(Octets(p.value, q.value, r.value, 0)[..2])
    else if t.None? then None
    else Some(Octets(p.value, q.value, r.value, t.value))
  }

  /** Four characters that are not the last. */
  function DecodeFull(s: seq<byte>): Option<seq<byte>>
    requires |s| == 4
  {
    if PAD in s then None else DecodeLast(s)
  }

  function Decode(s: seq<byte>): Option<seq<byte>> {
    if |s| == 0 then Some([])
    else if |s| < 4 then None
    else if |s| == 4 then DecodeLast(s)
    else
      var first, rest := DecodeFull(s[..4]), Decode(s[4..]);
      if first.None? || rest.None? then None else Some(first.value + rest.value)
  }

  // ---------------------------------------------------------------- encoding

  function EncodeThree(a: byte, b: byte, c: byte): seq<byte> {
    [Letter(a >> 2), Letter(((a & 3) << 4) | (b >> 4)), Letter(((b & 0xf) << 2) | (c >> 6)), Letter(c & 0x3f)]
  }

  function EncodeTail(s: seq<byte>): seq<byte>
    requires 0 < |s| < 3
  {
    if |s| == 1 then [Letter(s[0] >> 2), Letter((s[0] & 3) << 4), PAD, PAD]
    else [Letter(s[0] >> 2), Letter(((s[0] & 3) << 4) | (s[1] >> 4)), Letter((s[1] & 0xf) << 2), PAD]
  }

  /** base64_encoded_size. */
  function EncodedSize(size: nat): (r: nat)
    ensures r == (if size % 3 == 0 then size / 3 else size / 3 + 1) * 4
  {
    (size + 2 - (size + 2) % 3) / 3 * 4
  }

  function Encode(s: seq<byte>): (r: seq<byte>)
    ensures |r| == EncodedSize(|s|)
  {
    if |s| == 0 then [] else if |s| < 3 then EncodeTail(s) else EncodeThree(s[0], s[1], s[2]) + Encode(s[3..])
  }

  // ---------------------------------------------------------------- the two are inverse

  lemma LetterValue(v: byte)
    requires v < 64
    ensures ValueOf(Letter(v)) == Some(v) && Letter(v) != PAD
  {
  }

  lemma ValueLetter(c: byte)
    requires ValueOf(c).Some?
    ensures ValueOf(c).value < 64 && Letter(ValueOf(c).value) == c && c != PAD
  {
  }

  /** Three octets as four six-bit numbers and back. */
  lemma ThreeOctets(a: byte, b: byte, c: byte)
    ensures a >> 2 < 64 && ((a & 3) << 4) | (b >> 4) < 64 && ((b & 0xf) << 2) | (c >> 6) < 64 && c & 0x3f < 64
    ensures Octets(a >> 2, ((a & 3) << 4) | (b >> 4), ((b & 0xf) << 2) | (c >> 6), c & 0x3f) == [a, b, c]
  {
  }

  lemma FourNumbers(p: byte, q: byte, r: byte, s: byte)
    requires p < 64 && q < 64 && r < 64 && s < 64
    ensures var o := Octets(p, q, r, s);
      && o[0] >> 2 == p && ((o[0] & 3) << 4) | (o[1] >> 4) == q
      && ((o[1] & 0xf) << 2) | (o[2] >> 6) == r && o[2] & 0x3f == s
  {
  }

  lemma OneOctet(a: byte)
    ensures DecodeLast(EncodeTail([a])) == Some([a])
  {
    LetterValue(a >> 2);
    LetterValue((a & 3) << 4);
    var o := Octets(a >> 2, (a & 3) << 4, 0, 0);
    assert o[0] == a && o[..1] == [o[0]];
  }

  lemma TwoOctets(a: byte, b: byte)
    ensures DecodeLast(EncodeTail([a, b])) == Some([a, b])
  {
    hide Letter, ValueOf;
    ThreeOctets(a, b, 0);
    LetterValue(a >> 2);
    LetterValue(((a & 3) << 4) | (b >> 4));
    LetterValue((b & 0xf) << 2);
    assert Octets(a >> 2, ((a & 3) << 4) | (b >> 4), (b & 0xf) << 2, 0)[..2] == [a, b];
  }

  lemma ThreeOctetsBack(a: byte, b: byte, c: byte)
    ensures DecodeLast(EncodeThree(a, b, c)) == Some([a, b, c]) && PAD !in EncodeThree(a, b, c)
  {
    ThreeOctets(a, b, c);
    LetterValue(a >> 2);
    LetterValue(((a & 3) << 4) | (b >> 4));
    LetterValue(((b & 0xf) << 2) | (c >> 6));
    LetterValue(c & 0x3f);
  }

  lemma LastGroup(s: seq<byte>)
    requires 0 < |s| <= 3
    ensures |Encode(s)| == 4 && DecodeLast(Encode(s)) == Some(s)
    ensures |s| == 3 ==> DecodeFull(Encode(s)) == Some(s)
  {
    if |s| == 1 {
      OneOctet(s[0]);
      assert s == [s[0]];
    } else if |s| == 2 {
      TwoOctets(s[0], s[1]);
      assert s == [s[0], s[1]];
    } else {
      ThreeOctetsBack(s[0], s[1], s[2]);
      assert Encode(s) == EncodeThree(s[0], s[1], s[2]) + Encode(s[3..]) && s == [s[0], s[1], s[2]];
    }
  }

  /** Decoding what was encoded gives it back, whatever its length. */
  lemma {:induction false} RoundTrip(s: seq<byte>)
    ensures Decode(Encode(s)) == Some(s)
    decreases |s|
  {
    if |s| > 3 {
      RoundTrip(s[3..]);
      LastGroup(s[..3]);
      var e := Encode(s);
      assert e[..4] == EncodeThree(s[0], s[1], s[2]) == Encode(s[..3]) by {
        assert Encode(s[..3][3..]) == [];
      }
      assert e[4..] == Encode(s[3..]);
      assert s[..3] + s[3..] == s;
    } else if |s| > 0 {
      LastGroup(s);
    }
  }

  lemma OneOctetOnly(t: seq<byte>)
    requires |t| == 4 && ValueOf(t[0]).Some? && ValueOf(t[1]).Some? && t[2..] == [PAD, PAD]
    requires ValueOf(t[1]).value & 0xf == 0
    ensures EncodeTail(Octets(ValueOf(t[0]).value, ValueOf(t[1]).value, 0, 0)[..1]) == t
  {
    ValueLetter(t[0]);
    ValueLetter(t[1]);
    TailNumbers(ValueOf(t[0]).value, ValueOf(t[1]).value, 0);
    assert t == [t[0], t[1]] + t[2..];
  }

  lemma TwoOctetsOnly(t: seq<byte>)
    requires |t| == 4 && ValueOf(t[0]).Some? && ValueOf(t[1]).Some? && ValueOf(t[2]).Some? && t[3] == PAD
    requires ValueOf(t[2]).value & 3 == 0
    ensures EncodeTail(Octets(ValueOf(t[0]).value, ValueOf(t[1]).value, ValueOf(t[2]).value, 0)[..2]) == t
  {
    ValueLetter(t[0]);
    ValueLetter(t[1]);
    ValueLetter(t[2]);
    TailNumbers(ValueOf(t[0]).value, ValueOf(t[1]).value, ValueOf(t[2]).value);
  }

  lemma ThreeOctetsOnly(t: seq<byte>)
    requires |t| == 4 && forall i | 0 <= i < 4 :: ValueOf(t[i]).Some?
    ensures var o := Octets(ValueOf(t[0]).value, ValueOf(t[1]).value, ValueOf(t[2]).value, ValueOf(t[3]).value);
      EncodeThree(o[0], o[1], o[2]) == t
  {
    ValueLetter(t[0]);
    ValueLetter(t[1]);
    ValueLetter(t[2]);
    ValueLetter(t[3]);
    FourNumbers(ValueOf(t[0]).value, ValueOf(t[1]).value, ValueOf(t[2]).value, ValueOf(t[3]).value);
  }

  lemma LastGroupOnly(t: seq<byte>)
    requires |t| == 4 && DecodeLast(t).Some?
    ensures var s := DecodeLast(t).value; 0 < |s| <= 3 && Encode(s) == t && (DecodeFull(t).Some? ==> |s| == 3)
  {
    var s := DecodeLast(t).value;
    if |s| == 1 {
      OneOctetOnly(t);
    } else if |s| == 2 {
      TwoOctetsOnly(t);
    } else {
      ThreeOctetsOnly(t);
      assert Encode(s) == EncodeThree(s[0], s[1], s[2]) + Encode(s[3..]) && s[3..] == [];
    }
  }

  lemma TailNumbers(p: byte, q: byte, r: byte)
    requires p < 64 && q < 64 && r < 64
    ensures var o := Octets(p, q, r, 0);
      && o[0] >> 2 == p && ((o[0] & 3) << 4) | (o[1] >> 4) == q
      && (q & 0xf == 0 ==> (o[0] & 3) << 4 == q) && (r & 3 == 0 ==> (o[1] & 0xf) << 2 == r)
  {
  }

  /** The encoding is the only text that decodes to `s`. */
  lemma {:induction false} OnlyEncoding(t: seq<byte>, s: seq<byte>)
    ensures Decode(t) == Some(s) <==> t == Encode(s)
    decreases |t|
  {
    RoundTrip(s);
    if Decode(t) == Some(s) {
      if |t| > 4 {
        var first := DecodeFull(t[..4]).value;
        LastGroupOnly(t[..4]);
        OnlyEncoding(t[4..], s[3..]);
        assert s[..3] == first && s[3..] == Decode(t[4..]).value;
        assert Encode(s) == EncodeThree(s[0], s[1], s[2]) + Encode(s[3..]);
        assert Encode(first) == EncodeThree(s[0], s[1], s[2]) + Encode(first[3..]);
        assert t == t[..4] + t[4..];
      } else if |t| == 4 {
        LastGroupOnly(t);
      }
    }
  }

  // ---------------------------------------------------------------- the encoder

  const UINT: nat := 0x1_0000_0000

  /** The longest input whose encoding a 32-bit index can reach. */
  const LONGEST: nat := UINT / 4 * 3

  /** All of an encoding but the last groups. */
  lemma {:induction false} EncodeMore(s: seq<byte>, n: nat)
    requires n % 3 == 0 && n + 3 <= |s|
    ensures Encode(s[..n + 3]) == Encode(s[..n]) + EncodeThree(s[n], s[n + 1], s[n + 2])
    decreases n
  {
    if n == 0 {
      assert s[..3][3..] == [];
      assert Encode(s[..3]) == EncodeThree(s[0], s[1], s[2]) + Encode(s[..3][3..]);
    } else {
      var u := s[3..];
      EncodeMore(u, n - 3);
      assert s[..n + 3][3..] == u[..n] && s[..n][3..] == u[..n - 3];
      assert s[..n] != [] && s[..n + 3] != [];
      Regroup(EncodeThree(s[0], s[1], s[2]), Encode(u[..n - 3]), EncodeThree(s[n], s[n + 1], s[n + 2]));
    }
  }

  lemma {:induction false} EncodeRest(s: seq<byte>, n: nat)
    requires n % 3 == 0 && n <= |s| < n + 3
    ensures Encode(s) == Encode(s[..n]) + Encode(s[n..])
    decreases n
  {
    if n == 0 {
      assert s[n..] == s;
    } else {
      var u := s[3..];
      EncodeRest(u, n - 3);
      assert s[..n][3..] == u[..n - 3] && s[n..] == u[n - 3..];
      Regroup(EncodeThree(s[0], s[1], s[2]), Encode(u[..n - 3]), Encode(s[n..]));
    }
  }

  method PutFour(dst: array<byte>, k: nat, x: seq<byte>)
    requires k + 4 <= dst.Length && |x| == 4
    modifies dst
    ensures dst[..] == old(dst[..k]) + x + old(dst[k + 4..])
  {
    dst[k] := x[0];
    dst[k + 1] := x[1];
    dst[k + 2] := x[2];
    dst[k + 3] := x[3];
  }

  /** What the encoder has done to a buffer that held `was`: an encoding at its start, if the input is one whose encoding
      a 32-bit index can reach; and nothing behind the reach of the index. */
  predicate Wrote(dst: seq<byte>, was: seq<byte>, code: seq<byte>, fits: bool) {
    && |dst| == |was| && |code| <= |dst|
    && (fits ==> dst == code + was[|code|..])
    && (|dst| >= UINT ==> dst[UINT..] == was[UINT..])
  }

  lemma WroteFour(dst: seq<byte>, was: seq<byte>, code: seq<byte>, fits: bool, k: nat, x: seq<byte>)
    requires Wrote(dst, was, code, fits) && |x| == 4 && k + 4 <= UINT && k + 4 <= |dst| && |code| + 4 <= |dst|
    requires fits ==> k == |code|
    ensures Wrote(dst[..k] + x + dst[k + 4..], was, code + x, fits)
  {
  }

  /** Where the encoder's loop reads and writes, and where it goes next. */
  lemma NextGroup(size: nat, n: nat, i: nat)
    requires n == size / 3 * 3 % UINT && i < n && i % 3 == 0
    ensures i + 3 <= size && (i + 3) % UINT == i + 3 <= n + 2 && (i + 3) % 3 == 0
  {
  }

  lemma NextSize(i: nat, size: nat)
    requires i % 3 == 0 && i + 3 <= size
    ensures EncodedSize(i + 3) == EncodedSize(i) + 4 <= EncodedSize(size) && EncodedSize(i) % 4 == 0
  {
    WholeSize(i);
    WholeSize(i + 3);
  }

  lemma Indexes(size: nat, n: nat, i: nat, k: nat)
    requires n == size / 3 * 3 % UINT && i < n && i % 3 == 0 && k == EncodedSize(i) % UINT
    ensures i + 3 <= size && (i + 3) % UINT == i + 3 <= n + 2 && (i + 3) % 3 == 0
    ensures k + 4 <= UINT && (k + 4) % UINT == EncodedSize(i + 3) % UINT
    ensures EncodedSize(i) + 4 <= EncodedSize(size) && k + 4 <= EncodedSize(size)
    ensures size <= LONGEST ==> k == EncodedSize(i)
  {
    hide EncodedSize;
    NextGroup(size, n, i);
    NextSize(i, size);
    WrapsOn(EncodedSize(i), k);
    Below(size, EncodedSize(i));
  }

  lemma Below(size: nat, w: nat)
    requires w + 4 <= EncodedSize(size)
    ensures w % UINT <= w && (size <= LONGEST ==> w % UINT == w)
  {
  }

  lemma WrapsOn(w: nat, k: nat)
    requires k == w % UINT && w % 4 == 0
    ensures k + 4 <= UINT && (k + 4) % UINT == (w + 4) % UINT
  {
  }

  /** The same for the tail. */
  lemma TailGroup(size: nat, n: nat, i: nat)
    requires n == size / 3 * 3 % UINT && n != size && size - n <= 2
    requires n <= i <= n + 2 && i % 3 == 0
    ensures i == n && i < size < i + 3
  {
  }

  lemma TailSize(i: nat, size: nat)
    requires i % 3 == 0 && i < size < i + 3
    ensures EncodedSize(size) == EncodedSize(i) + 4 && EncodedSize(i) % 4 == 0
  {
    WholeSize(i);
  }

  lemma TailIndexes(size: nat, n: nat, i: nat, k: nat)
    requires n == size / 3 * 3 % UINT && n != size && size - n <= 2
    requires n <= i <= n + 2 && i % 3 == 0 && k == EncodedSize(i) % UINT
    ensures i == n && i < size < i + 3 && k + 4 <= UINT
    ensures EncodedSize(i) + 4 == EncodedSize(size) && k + 4 <= EncodedSize(size)
    ensures size <= LONGEST ==> k == EncodedSize(i)
  {
    hide EncodedSize;
    TailGroup(size, n, i);
    TailSize(i, size);
    WrapsOn(EncodedSize(i), k);
    Below(size, EncodedSize(i));
  }

  lemma NoTail(size: nat, n: nat, i: nat)
    requires size <= LONGEST && n == size / 3 * 3 % UINT && (n == size || size - n > 2)
    requires n <= i <= size && i <= n + 2
    ensures i == size
  {
  }

  lemma WholeSize(i: nat)
    requires i % 3 == 0
    ensures 3 * EncodedSize(i) == 4 * i
  {
  }

  /** Three octets of the input. */
  method EncodeGroup(src: seq<byte>, dst: array<byte>, i: nat, k: nat, ghost was: seq<byte>, ghost fits: bool)
    requires i + 3 <= |src| && i % 3 == 0 && k + 4 <= UINT && k + 4 <= dst.Length && EncodedSize(i) + 4 <= dst.Length
    requires Wrote(dst[..], was, Encode(src[..i]), fits) && (fits ==> k == EncodedSize(i))
    modifies dst
    ensures Wrote(dst[..], was, Encode(src[..i + 3]), fits)
  {
    EncodeMore(src, i);
    var x := EncodeThree(src[i], src[i + 1], src[i + 2]);
    WroteFour(dst[..], was, Encode(src[..i]), fits, k, x);
    PutFour(dst, k, x);
  }

  /** The one or two octets behind the last three. */
  method EncodeEnd(src: seq<byte>, dst: array<byte>, i: nat, k: nat, ghost was: seq<byte>, ghost fits: bool)
    requires i < |src| < i + 3 && i % 3 == 0 && k + 4 <= UINT && k + 4 <= dst.Length && EncodedSize(i) + 4 <= dst.Length
    requires Wrote(dst[..], was, Encode(src[..i]), fits) && (fits ==> k == EncodedSize(i))
    modifies dst
    ensures Wrote(dst[..], was, Encode(src), fits)
  {
    EncodeRest(src, i);
    WroteFour(dst[..], was, Encode(src[..i]), fits, k, EncodeTail(src[i..]));
    PutFour(dst, k, EncodeTail(src[i..]));
  }

  /** LONGEST is exact: a longer input's encoding goes on behind the reach of the index, where nothing is written. */
  lemma Unreached(size: nat)
    ensures size > LONGEST <==> EncodedSize(size) > UINT
  {
    if size % 3 == 0 {
      WholeSize(size);
    } else {
      WholeSize(size - size % 3);
    }
  }

  /** base64_encode. Its indexes are unsigned and 32 bits wide. */
  method Base64Encode(src: seq<byte>, dst: array<byte>) returns (written: nat)
    requires dst.Length >= EncodedSize(|src|)
    modifies dst
    ensures written == EncodedSize(|src|)
    ensures |src| <= LONGEST ==> dst[..written] == Encode(src) && dst[written..] == old(dst[written..])
    ensures forall j | UINT <= j < dst.Length :: dst[j] == old(dst[j])
  {
    hide Encode;
    written := EncodedSize(|src|);
    var i, k := 0, 0;
    var n := |src| / 3 * 3 % UINT;
    ghost var fits := |src| <= LONGEST;
    ghost var was := dst[..];
    while i < n
      invariant 0 <= i <= |src| && i % 3 == 0 && i <= n + 2
      invariant k == EncodedSize(i) % UINT
      invariant Wrote(dst[..], was, Encode(src[..i]), fits)
    {
      Indexes(|src|, n, i, k);
      EncodeGroup(src, dst, i, k, was, fits);
      i := (i + 3) % UINT;
      k := (k + 4) % UINT;
    }
    if n != |src| && |src| - n <= 2 {
      TailIndexes(|src|, n, i, k);
      EncodeEnd(src, dst, i, k, was, fits);
    } else if fits {
      NoTail(|src|, n, i);
      assert src[..i] == src;
    }
  }
}
