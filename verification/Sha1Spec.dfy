/** The Secure Hash Algorithm SHA-1 as sections 5 and 6.1 of FIPS 180-4 define it. */
module Sha1Spec {
  import opened Bytes

  type word = bv32

  /** The five working variables, and the five words of a hash value. */
  datatype Registers = Registers(a: word, b: word, c: word, d: word, e: word)

  function Rol(x: word, n: bv6): word
    requires n <= 32
  {
    (x << n) | (x >> (32 - n))
  }

  // ---------------------------------------------------------------- section 6.1.2: one block

  /** The message schedule: word `t`. */
  function W(block: seq<word>, t: nat): word
    requires |block| == 16
  {
    if t < 16 then block[t] else Rol(W(block, t - 3) ^ W(block, t - 8) ^ W(block, t - 14) ^ W(block, t - 16), 1)
  }

  function Ch(x: word, y: word, z: word): word {
    (x & y) ^ (!x & z)
  }

  function Parity(x: word, y: word, z: word): word {
    x ^ y ^ z
  }

  function Maj(x: word, y: word, z: word): word {
    (x & y) ^ (x & z) ^ (y & z)
  }

  function F(t: nat, x: word, y: word, z: word): word {
    if t < 20 then Ch(x, y, z) else if t < 40 then Parity(x, y, z) else if t < 60 then Maj(x, y, z) else Parity(x, y, z)
  }

  function K(t: nat): word {
    if t < 20 then 0x5a827999 else if t < 40 then 0x6ed9eba1 else if t < 60 then 0x8f1bbcdc else 0xca62c1d6
  }

  /** The word T of round `t`. */
  function Mix(a: word, b: word, c: word, d: word, e: word, t: nat, w: word): word {
    Sum(Rol(a, 5), F(t, b, c, d), e, K(t), w)
  }

  function Sum(a: word, f: word, e: word, k: word, w: word): word {
    a + f + e + k + w
  }

  function Round(r: Registers, t: nat, w: word): Registers {
    Registers(Mix(r.a, r.b, r.c, r.d, r.e, t, w), r.a, Rol(r.b, 30), r.c, r.d)
  }

  /** The working variables after `t` rounds. */
  function Rounds(h: Registers, schedule: seq<word>, t: nat): Registers
    requires t <= |schedule|
  {
    if t == 0 then h else Round(Rounds(h, schedule, t - 1), t - 1, schedule[t - 1])
  }

  /** The 80 words of the schedule. */
  function Schedule(block: seq<word>): (schedule: seq<word>)
    requires |block| == 16
    ensures |schedule| == 80
  {
    seq(80, t requires 0 <= t < 80 => W(block, t))
  }

  function Compress(h: Registers, block: seq<word>): Registers
    requires |block| == 16
  {
    var schedule := Schedule(block);
    Plus(h, Rounds(h, schedule, |schedule|))
  }

  function Plus(h: Registers, r: Registers): Registers {
    Registers(Add(h.a, r.a), Add(h.b, r.b), Add(h.c, r.c), Add(h.d, r.d), Add(h.e, r.e))
  }

  function Add(x: word, y: word): word {
    x + y
  }

  // ---------------------------------------------------------------- section 5: messages

  const INITIAL: Registers := Registers(0x67452301, 0xefcdab89, 0x98badcfe, 0x10325476, 0xc3d2e1f0)

  /** Four octets, the first the most significant. */
  function Big(a: byte, b: byte, c: byte, d: byte): word {
    (d as word) | ((c as word) << 8) | ((b as word) << 16) | ((a as word) << 24)
  }

  function WordAt(s: seq<byte>, k: nat): word
    requires 4 * k + 4 <= |s|
  {
    Big(s[4 * k], s[4 * k + 1], s[4 * k + 2], s[4 * k + 3])
  }

  function OctetsOf(w: word): (s: seq<byte>)
    ensures |s| == 4 && WordAt(s, 0) == w
  {
    [((w >> 24) & 0xff) as byte, ((w >> 16) & 0xff) as byte, ((w >> 8) & 0xff) as byte, (w & 0xff) as byte]
  }

  /** The 16 words of a block. */
  function WordsOf(s: seq<byte>): (block: seq<word>)
    requires |s| == 64
    ensures |block| == 16
  {
    seq(16, k requires 0 <= k < 16 => WordAt(s, k))
  }

  function Zeros(n: nat): seq<byte> {
    seq(n, _ => 0)
  }

  const TWO_32: nat := 0x1_0000_0000
  const TWO_64: nat := 0x1_0000_0000_0000_0000

  /** How many zero octets section 5.1.1 puts between the one bit and the length. */
  function ZerosAfter(length: nat): (k: nat)
    ensures (length + 1 + k) % 64 == 56 && k < 64
  {
    (119 - length % 64) % 64
  }

  /** The word whose binary digits are those of `n`, or the last 32 of them. */
  function ToWord(n: nat): word {
    if n == 0 then 0 else (ToWord(n / 2) << 1) | (if n % 2 == 1 then 1 else 0)
  }

  /** A 64-bit number in eight octets. */
  function Length64(bits: nat): (s: seq<byte>)
    ensures |s| == 8
  {
    OctetsOf(ToWord(bits / TWO_32)) + OctetsOf(ToWord(bits % TWO_32))
  }

  /** A one bit, zeros, and the eight octets of a length. */
  function PaddingWith(octets: nat, length: seq<byte>): (p: seq<byte>)
    ensures |length| == 8 ==> (octets + |p|) % 64 == 0
  {
    [0x80] + Zeros(ZerosAfter(octets)) + length
  }

  /** The padding behind a message; a length of 2^64 bits or more, which the standard excludes, is cut to 64 bits. */
  function Padding(octets: nat): (p: seq<byte>)
    ensures (octets + |p|) % 64 == 0
  {
    PaddingWith(octets, Length64(8 * octets % TWO_64))
  }

  /** A compression function applied to one block after the other. */
  function Chain(f: (Registers, seq<byte>) -> Registers, s: seq<byte>): Registers
    requires |s| % 64 == 0
  {
    if |s| == 0 then INITIAL else f(Chain(f, s[..|s| - 64]), s[|s| - 64..])
  }

  /** Compress as a function of the block's octets. */
  function HashBlock(h: Registers, s: seq<byte>): Registers {
    if |s| == 64 then Compress(h, WordsOf(s)) else h
  }

  /** The hash value after a whole number of blocks. */
  function Blocks(s: seq<byte>): Registers
    requires |s| % 64 == 0
  {
    Chain(HashBlock, s)
  }

  function Octets(h: Registers): seq<byte> {
    OctetsOf(h.a) + OctetsOf(h.b) + OctetsOf(h.c) + OctetsOf(h.d) + OctetsOf(h.e)
  }

  /** The 20 octets of a message's digest. */
  function Sha1(message: seq<byte>): (digest: seq<byte>)
    ensures |digest| == 20
  {
    Octets(Blocks(message + Padding(|message|)))
  }
}
