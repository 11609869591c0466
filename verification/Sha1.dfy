/** Hashing in place: the 16-word circular schedule, the unrolled rounds with rotated registers, and the buffer that
    takes a message in pieces. */
module Sha1 {
  import opened Bytes
  import opened Sha1Spec

  // ---------------------------------------------------------------- one block

  /** Words 16 and later of a schedule come from the 16 before them. */
  predicate IsSchedule(s: seq<word>) {
    |s| == 80 && forall t | 16 <= t < 80 :: Next(s, t)
  }

  predicate Next(s: seq<word>, t: nat)
    requires 16 <= t < |s|
  {
    s[t] == Rol(s[t - 3] ^ s[t - 8] ^ s[t - 14] ^ s[t - 16], 1)
  }

  lemma ScheduleAt(m: seq<word>, t: nat)
    requires |m| == 16 && t < 80
    ensures Schedule(m)[t] == W(m, t)
  {
  }

  lemma WordNext(m: seq<word>, t: nat)
    requires |m| == 16 && 16 <= t
    ensures W(m, t) == Rol(W(m, t - 3) ^ W(m, t - 8) ^ W(m, t - 14) ^ W(m, t - 16), 1)
  {
    hide Rol;
  }

  lemma NextAt(m: seq<word>, t: nat)
    requires |m| == 16 && 16 <= t < 80
    ensures Next(Schedule(m), t)
  {
    hide Schedule, W, Rol;
    ScheduleAt(m, t);
    ScheduleAt(m, t - 3);
    ScheduleAt(m, t - 8);
    ScheduleAt(m, t - 14);
    ScheduleAt(m, t - 16);
    WordNext(m, t);
  }

  lemma ScheduleBegins(m: seq<word>)
    requires |m| == 16
    ensures Schedule(m)[..16] == m
  {
  }

  lemma ScheduleNext(m: seq<word>)
    requires |m| == 16
    ensures IsSchedule(Schedule(m)) && Schedule(m)[..16] == m
  {
    hide Next, Schedule, W;
    forall t | 16 <= t < 80 ensures Next(Schedule(m), t) {
      NextAt(m, t);
    }
    ScheduleBegins(m);
  }

  /** Before round `t` the 16 words hold the latest 16 words of the schedule, each at its number modulo 16. */
  predicate Window(b: seq<word>, s: seq<word>, t: nat)
    requires |s| == 80
  {
    |b| == 16 && forall k: nat | k < 80 && First(t) <= k < First(t) + 16 :: Held(b, s, k)
  }

  predicate Held(b: seq<word>, s: seq<word>, k: nat)
    requires |b| == 16 && k < |s|
  {
    b[k % 16] == s[k]
  }

  function First(t: nat): nat {
    if t < 16 then 0 else t - 16
  }

  function Blk(block: array<word>, i: nat): word
    requires block.Length == 16 && i < 16
    reads block
  {
    var x := block[(i + 13) % 16] ^ block[(i + 8) % 16] ^ block[(i + 2) % 16] ^ block[i];
    (x << 1) | (x >> 31)
  }

  lemma RolOne(x: word)
    ensures Rol(x, 1) == (x << 1) | (x >> 31)
  {
  }

  lemma Slot(t: nat, back: nat)
    requires back <= t && back <= 16
    ensures (t - back) % 16 == (t % 16 + (16 - back)) % 16
  {
  }

  lemma InWindow(b: seq<word>, s: seq<word>, t: nat, back: nat)
    requires |s| == 80 && 16 <= t < 80 && Window(b, s, t) && 1 <= back <= 16
    ensures b[(t % 16 + (16 - back)) % 16] == s[t - back]
  {
    Slot(t, back);
    assert Held(b, s, t - back);
  }

  /** What the circular block computes is the next word of the schedule. */
  lemma NextWord(b: seq<word>, s: seq<word>, t: nat)
    requires IsSchedule(s) && 16 <= t < 80 && Window(b, s, t)
    ensures var i := t % 16; var x := b[(i + 13) % 16] ^ b[(i + 8) % 16] ^ b[(i + 2) % 16] ^ b[i];
      (x << 1) | (x >> 31) == s[t]
  {
    InWindow(b, s, t, 3);
    InWindow(b, s, t, 8);
    InWindow(b, s, t, 14);
    InWindow(b, s, t, 16);
    assert Next(s, t);
    RolOne(s[t - 3] ^ s[t - 8] ^ s[t - 14] ^ s[t - 16]);
  }

  /** Replacing the oldest word by the next one moves the window on. */
  lemma Advance(b: seq<word>, s: seq<word>, t: nat)
    requires |s| == 80 && 16 <= t < 80 && Window(b, s, t)
    ensures Window(b[t % 16 := s[t]], s, t + 1)
  {
    var next := b[t % 16 := s[t]];
    forall k: nat | k < 80 && First(t + 1) <= k < First(t + 1) + 16 ensures Held(next, s, k) {
      assert k < t ==> Held(b, s, k);
    }
  }

  lemma ChShort(x: word, y: word, z: word)
    ensures (x & (y ^ z)) ^ z == Ch(x, y, z)
  {
  }

  lemma MajShort(x: word, y: word, z: word)
    ensures ((x | y) & z) | (x & y) == Maj(x, y, z)
  {
  }

  /** What every round adds up. */
  function Stir(v: word, f: word, z: word, b: word, k: word): word {
    z + (f + b + k + Rol(v, 5))
  }

  lemma StirIs(v: word, f: word, g: word, z: word, b: word, k: word)
    requires f == g
    ensures Stir(v, f, z, b, k) == Sum(Rol(v, 5), g, z, k, b)
  {
  }

  lemma ChRound(v: word, w: word, x: word, y: word, z: word, b: word, t: nat)
    requires 0 <= t < 20
    ensures Stir(v, (w & (x ^ y)) ^ y, z, b, 0x5a827999) == Mix(v, w, x, y, z, t, b)
  {
    ChShort(w, x, y);
    StirIs(v, (w & (x ^ y)) ^ y, Ch(w, x, y), z, b, 0x5a827999);
  }

  lemma ParityRound(v: word, w: word, x: word, y: word, z: word, b: word, t: nat)
    requires 20 <= t < 40
    ensures Stir(v, w ^ x ^ y, z, b, 0x6ed9eba1) == Mix(v, w, x, y, z, t, b)
  {
    StirIs(v, w ^ x ^ y, Parity(w, x, y), z, b, 0x6ed9eba1);
  }

  lemma MajRound(v: word, w: word, x: word, y: word, z: word, b: word, t: nat)
    requires 40 <= t < 60
    ensures Stir(v, ((w | x) & y) | (w & x), z, b, 0x8f1bbcdc) == Mix(v, w, x, y, z, t, b)
  {
    MajShort(w, x, y);
    StirIs(v, ((w | x) & y) | (w & x), Maj(w, x, y), z, b, 0x8f1bbcdc);
  }

  lemma LastRound(v: word, w: word, x: word, y: word, z: word, b: word, t: nat)
    requires 60 <= t < 80
    ensures Stir(v, w ^ x ^ y, z, b, 0xca62c1d6) == Mix(v, w, x, y, z, t, b)
  {
    StirIs(v, w ^ x ^ y, Parity(w, x, y), z, b, 0xca62c1d6);
  }

  /** The working variables before each round and after the last. */
  ghost predicate IsTrace(r: seq<Registers>, s: seq<word>) {
    |r| == 81 && IsSchedule(s) && forall t | 0 <= t < 80 :: Follows(r, s, t)
  }

  ghost predicate Follows(r: seq<Registers>, s: seq<word>, t: nat)
    requires t + 1 < |r| && t < |s|
  {
    r[t + 1] == Round(r[t], t, s[t])
  }

  ghost function Trace(h: Registers, s: seq<word>): seq<Registers>
    requires |s| == 80
  {
    seq(81, t requires 0 <= t < 81 => Rounds(h, s, t))
  }

  lemma TraceFollows(h: Registers, s: seq<word>)
    requires IsSchedule(s)
    ensures IsTrace(Trace(h, s), s) && Trace(h, s)[0] == h && Trace(h, s)[80] == Rounds(h, s, |s|)
  {
    forall t | 0 <= t < 80 ensures Follows(Trace(h, s), s, t) {
      assert Trace(h, s)[t + 1] == Rounds(h, s, t + 1) && Trace(h, s)[t] == Rounds(h, s, t);
    }
  }

  /** A round on a word of the block itself. */
  method R0(block: array<word>, v: word, w: word, x: word, y: word, z: word, i: nat,
                ghost r: seq<Registers>, ghost s: seq<word>, ghost t: nat)
    returns (w': word, z': word)
    requires 0 <= t < 16 && i == t % 16
    requires IsTrace(r, s) && block.Length == 16 && Window(block[..], s, t)
    requires r[t] == Registers(v, w, x, y, z)
    ensures Window(block[..], s, t + 1) && r[t + 1] == Registers(z', v, w', x, y)
  {
    assert Held(block[..], s, t);
    assert block[i] == s[t] && Follows(r, s, t);
    ChRound(v, w, x, y, z, s[t], t);
    z' := Stir(v, (w & (x ^ y)) ^ y, z, block[i], 0x5a827999);
    w' := Rol(w, 30);
  }

  /** The rounds on later words of the schedule. */
  method R1(block: array<word>, v: word, w: word, x: word, y: word, z: word, i: nat,
                ghost r: seq<Registers>, ghost s: seq<word>, ghost t: nat)
    returns (w': word, z': word)
    requires 16 <= t < 20 && i == t % 16
    requires IsTrace(r, s) && block.Length == 16 && Window(block[..], s, t)
    requires r[t] == Registers(v, w, x, y, z)
    modifies block
    ensures Window(block[..], s, t + 1) && r[t + 1] == Registers(z', v, w', x, y)
  {
    NextWord(block[..], s, t);
    Advance(block[..], s, t);
    ghost var was := block[..];
    block[i] := Blk(block, i);
    assert block[..] == was[i := s[t]];
    assert block[i] == s[t] && Follows(r, s, t);
    ChRound(v, w, x, y, z, s[t], t);
    z' := Stir(v, (w & (x ^ y)) ^ y, z, block[i], 0x5a827999);
    w' := Rol(w, 30);
  }

  /** As R1. */
  method R2(block: array<word>, v: word, w: word, x: word, y: word, z: word, i: nat,
                ghost r: seq<Registers>, ghost s: seq<word>, ghost t: nat)
    returns (w': word, z': word)
    requires 20 <= t < 40 && i == t % 16
    requires IsTrace(r, s) && block.Length == 16 && Window(block[..], s, t)
    requires r[t] == Registers(v, w, x, y, z)
    modifies block
    ensures Window(block[..], s, t + 1) && r[t + 1] == Registers(z', v, w', x, y)
  {
    NextWord(block[..], s, t);
    Advance(block[..], s, t);
    ghost var was := block[..];
    block[i] := Blk(block, i);
    assert block[..] == was[i := s[t]];
    assert block[i] == s[t] && Follows(r, s, t);
    ParityRound(v, w, x, y, z, s[t], t);
    z' := Stir(v, w ^ x ^ y, z, block[i], 0x6ed9eba1);
    w' := Rol(w, 30);
  }

  /** As R1. */
  method R3(block: array<word>, v: word, w: word, x: word, y: word, z: word, i: nat,
                ghost r: seq<Registers>, ghost s: seq<word>, ghost t: nat)
    returns (w': word, z': word)
    requires 40 <= t < 60 && i == t % 16
    requires IsTrace(r, s) && block.Length == 16 && Window(block[..], s, t)
    requires r[t] == Registers(v, w, x, y, z)
    modifies block
    ensures Window(block[..], s, t + 1) && r[t + 1] == Registers(z', v, w', x, y)
  {
    NextWord(block[..], s, t);
    Advance(block[..], s, t);
    ghost var was := block[..];
    block[i] := Blk(block, i);
    assert block[..] == was[i := s[t]];
    assert block[i] == s[t] && Follows(r, s, t);
    MajRound(v, w, x, y, z, s[t], t);
    z' := Stir(v, ((w | x) & y) | (w & x), z, block[i], 0x8f1bbcdc);
    w' := Rol(w, 30);
  }

  /** As R1. */
  method R4(block: array<word>, v: word, w: word, x: word, y: word, z: word, i: nat,
                ghost r: seq<Registers>, ghost s: seq<word>, ghost t: nat)
    returns (w': word, z': word)
    requires 60 <= t < 80 && i == t % 16
    requires IsTrace(r, s) && block.Length == 16 && Window(block[..], s, t)
    requires r[t] == Registers(v, w, x, y, z)
    modifies block
    ensures Window(block[..], s, t + 1) && r[t + 1] == Registers(z', v, w', x, y)
  {
    NextWord(block[..], s, t);
    Advance(block[..], s, t);
    ghost var was := block[..];
    block[i] := Blk(block, i);
    assert block[..] == was[i := s[t]];
    assert block[i] == s[t] && Follows(r, s, t);
    LastRound(v, w, x, y, z, s[t], t);
    z' := Stir(v, w ^ x ^ y, z, block[i], 0xca62c1d6);
    w' := Rol(w, 30);
  }

  ghost function Digest(digest: array<word>): Registers
    requires digest.Length == 5
    reads digest
  {
    Registers(digest[0], digest[1], digest[2], digest[3], digest[4])
  }

  /** Rounds 0 to 9. */
  method Rounds0(block: array<word>, v: word, w: word, x: word, y: word, z: word,
                  ghost r: seq<Registers>, ghost s: seq<word>)
    returns (a: word, b: word, c: word, d: word, e: word)
    requires IsTrace(r, s) && block.Length == 16 && Window(block[..], s, 0) && r[0] == Registers(v, w, x, y, z)
    modifies block
    ensures Window(block[..], s, 10) && r[10] == Registers(a, b, c, d, e)
  {
    assert |r| == 81 && |s| == 80;
    hide IsTrace, Window;
    a, b, c, d, e := v, w, x, y, z;
    b, e := R0(block, a, b, c, d, e, 0, r, s, 0);
    a, d := R0(block, e, a, b, c, d, 1, r, s, 1);
    e, c := R0(block, d, e, a, b, c, 2, r, s, 2);
    d, b := R0(block, c, d, e, a, b, 3, r, s, 3);
    c, a := R0(block, b, c, d, e, a, 4, r, s, 4);
    b, e := R0(block, a, b, c, d, e, 5, r, s, 5);
    a, d := R0(block, e, a, b, c, d, 6, r, s, 6);
    e, c := R0(block, d, e, a, b, c, 7, r, s, 7);
    d, b := R0(block, c, d, e, a, b, 8, r, s, 8);
    c, a := R0(block, b, c, d, e, a, 9, r, s, 9);
  }

  /** Rounds 10 to 19. */
  method Rounds10(block: array<word>, v: word, w: word, x: word, y: word, z: word,
                  ghost r: seq<Registers>, ghost s: seq<word>)
    returns (a: word, b: word, c: word, d: word, e: word)
    requires IsTrace(r, s) && block.Length == 16 && Window(block[..], s, 10) && r[10] == Registers(v, w, x, y, z)
    modifies block
    ensures Window(block[..], s, 20) && r[20] == Registers(a, b, c, d, e)
  {
    assert |r| == 81 && |s| == 80;
    hide IsTrace, Window;
    a, b, c, d, e := v, w, x, y, z;
    b, e := R0(block, a, b, c, d, e, 10, r, s, 10);
    a, d := R0(block, e, a, b, c, d, 11, r, s, 11);
    e, c := R0(block, d, e, a, b, c, 12, r, s, 12);
    d, b := R0(block, c, d, e, a, b, 13, r, s, 13);
    c, a := R0(block, b, c, d, e, a, 14, r, s, 14);
    b, e := R0(block, a, b, c, d, e, 15, r, s, 15);
    a, d := R1(block, e, a, b, c, d, 0, r, s, 16);
    e, c := R1(block, d, e, a, b, c, 1, r, s, 17);
    d, b := R1(block, c, d, e, a, b, 2, r, s, 18);
    c, a := R1(block, b, c, d, e, a, 3, r, s, 19);
  }

  lemma IndexOn(i: nat, t: nat, k: nat)
    requires i == t % 16
    ensures (i + k) % 16 == (t + k) % 16
  {
  }

  /** Five rounds, after which the registers are back in their places. */
  method Five2(block: array<word>, v: word, w: word, x: word, y: word, z: word, i: nat,
               ghost r: seq<Registers>, ghost s: seq<word>, ghost t: nat)
    returns (a: word, b: word, c: word, d: word, e: word)
    requires 20 <= t <= 35 && i == t % 16
    requires IsTrace(r, s) && block.Length == 16 && Window(block[..], s, t) && r[t] == Registers(v, w, x, y, z)
    modifies block
    ensures Window(block[..], s, t + 5) && r[t + 5] == Registers(a, b, c, d, e)
  {
    assert |r| == 81 && |s| == 80;
    IndexOn(i, t, 1);
    IndexOn(i, t, 2);
    IndexOn(i, t, 3);
    IndexOn(i, t, 4);
    hide IsTrace, Window;
    a, b, c, d, e := v, w, x, y, z;
    b, e := R2(block, a, b, c, d, e, i, r, s, t);
    a, d := R2(block, e, a, b, c, d, (i + 1) % 16, r, s, t + 1);
    e, c := R2(block, d, e, a, b, c, (i + 2) % 16, r, s, t + 2);
    d, b := R2(block, c, d, e, a, b, (i + 3) % 16, r, s, t + 3);
    c, a := R2(block, b, c, d, e, a, (i + 4) % 16, r, s, t + 4);
  }

  /** Rounds 20 to 39. */
  method Rounds20(block: array<word>, v: word, w: word, x: word, y: word, z: word,
                  ghost r: seq<Registers>, ghost s: seq<word>)
    returns (a: word, b: word, c: word, d: word, e: word)
    requires IsTrace(r, s) && block.Length == 16 && Window(block[..], s, 20) && r[20] == Registers(v, w, x, y, z)
    modifies block
    ensures Window(block[..], s, 40) && r[40] == Registers(a, b, c, d, e)
  {
    assert |r| == 81 && |s| == 80;
    hide IsTrace, Window;
    a, b, c, d, e := Five2(block, v, w, x, y, z, 4, r, s, 20);
    a, b, c, d, e := Five2(block, a, b, c, d, e, 9, r, s, 25);
    a, b, c, d, e := Five2(block, a, b, c, d, e, 14, r, s, 30);
    a, b, c, d, e := Five2(block, a, b, c, d, e, 3, r, s, 35);
  }

  method Five3(block: array<word>, v: word, w: word, x: word, y: word, z: word, i: nat,
               ghost r: seq<Registers>, ghost s: seq<word>, ghost t: nat)
    returns (a: word, b: word, c: word, d: word, e: word)
    requires 40 <= t <= 55 && i == t % 16
    requires IsTrace(r, s) && block.Length == 16 && Window(block[..], s, t) && r[t] == Registers(v, w, x, y, z)
    modifies block
    ensures Window(block[..], s, t + 5) && r[t + 5] == Registers(a, b, c, d, e)
  {
    assert |r| == 81 && |s| == 80;
    IndexOn(i, t, 1);
    IndexOn(i, t, 2);
    IndexOn(i, t, 3);
    IndexOn(i, t, 4);
    hide IsTrace, Window;
    a, b, c, d, e := v, w, x, y, z;
    b, e := R3(block, a, b, c, d, e, i, r, s, t);
    a, d := R3(block, e, a, b, c, d, (i + 1) % 16, r, s, t + 1);
    e, c := R3(block, d, e, a, b, c, (i + 2) % 16, r, s, t + 2);
    d, b := R3(block, c, d, e, a, b, (i + 3) % 16, r, s, t + 3);
    c, a := R3(block, b, c, d, e, a, (i + 4) % 16, r, s, t + 4);
  }

  /** Rounds 40 to 59. */
  method Rounds40(block: array<word>, v: word, w: word, x: word, y: word, z: word,
                  ghost r: seq<Registers>, ghost s: seq<word>)
    returns (a: word, b: word, c: word, d: word, e: word)
    requires IsTrace(r, s) && block.Length == 16 && Window(block[..], s, 40) && r[40] == Registers(v, w, x, y, z)
    modifies block
    ensures Window(block[..], s, 60) && r[60] == Registers(a, b, c, d, e)
  {
    assert |r| == 81 && |s| == 80;
    hide IsTrace, Window;
    a, b, c, d, e := Five3(block, v, w, x, y, z, 8, r, s, 40);
    a, b, c, d, e := Five3(block, a, b, c, d, e, 13, r, s, 45);
    a, b, c, d, e := Five3(block, a, b, c, d, e, 2, r, s, 50);
    a, b, c, d, e := Five3(block, a, b, c, d, e, 7, r, s, 55);
  }

  method Five4(block: array<word>, v: word, w: word, x: word, y: word, z: word, i: nat,
               ghost r: seq<Registers>, ghost s: seq<word>, ghost t: nat)
    returns (a: word, b: word, c: word, d: word, e: word)
    requires 60 <= t <= 75 && i == t % 16
    requires IsTrace(r, s) && block.Length == 16 && Window(block[..], s, t) && r[t] == Registers(v, w, x, y, z)
    modifies block
    ensures Window(block[..], s, t + 5) && r[t + 5] == Registers(a, b, c, d, e)
  {
    assert |r| == 81 && |s| == 80;
    IndexOn(i, t, 1);
    IndexOn(i, t, 2);
    IndexOn(i, t, 3);
    IndexOn(i, t, 4);
    hide IsTrace, Window;
    a, b, c, d, e := v, w, x, y, z;
    b, e := R4(block, a, b, c, d, e, i, r, s, t);
    a, d := R4(block, e, a, b, c, d, (i + 1) % 16, r, s, t + 1);
    e, c := R4(block, d, e, a, b, c, (i + 2) % 16, r, s, t + 2);
    d, b := R4(block, c, d, e, a, b, (i + 3) % 16, r, s, t + 3);
    c, a := R4(block, b, c, d, e, a, (i + 4) % 16, r, s, t + 4);
  }

  /** Rounds 60 to 79. */
  method Rounds60(block: array<word>, v: word, w: word, x: word, y: word, z: word,
                  ghost r: seq<Registers>, ghost s: seq<word>)
    returns (a: word, b: word, c: word, d: word, e: word)
    requires IsTrace(r, s) && block.Length == 16 && Window(block[..], s, 60) && r[60] == Registers(v, w, x, y, z)
    modifies block
    ensures Window(block[..], s, 80) && r[80] == Registers(a, b, c, d, e)
  {
    assert |r| == 81 && |s| == 80;
    hide IsTrace, Window;
    a, b, c, d, e := Five4(block, v, w, x, y, z, 12, r, s, 60);
    a, b, c, d, e := Five4(block, a, b, c, d, e, 1, r, s, 65);
    a, b, c, d, e := Five4(block, a, b, c, d, e, 6, r, s, 70);
    a, b, c, d, e := Five4(block, a, b, c, d, e, 11, r, s, 75);
  }

  /** The 80 rounds, and the new digest. */
  method AllRounds(digest: array<word>, block: array<word>, ghost r: seq<Registers>, ghost s: seq<word>)
    requires digest.Length == 5 && block.Length == 16 && digest != block
    requires IsTrace(r, s) && Window(block[..], s, 0) && r[0] == Digest(digest)
    modifies digest, block
    ensures Digest(digest) == Plus(r[0], r[80])
  {
    var a, b, c, d, e := digest[0], digest[1], digest[2], digest[3], digest[4];
    a, b, c, d, e := Rounds0(block, a, b, c, d, e, r, s);
    a, b, c, d, e := Rounds10(block, a, b, c, d, e, r, s);
    a, b, c, d, e := Rounds20(block, a, b, c, d, e, r, s);
    a, b, c, d, e := Rounds40(block, a, b, c, d, e, r, s);
    a, b, c, d, e := Rounds60(block, a, b, c, d, e, r, s);
    digest[0] := Add(digest[0], a);
    digest[1] := Add(digest[1], b);
    digest[2] := Add(digest[2], c);
    digest[3] := Add(digest[3], d);
    digest[4] := Add(digest[4], e);
  }

  /** The block is used up: its words are overwritten by the end of the schedule. */
  method Transform(digest: array<word>, block: array<word>)
    requires digest.Length == 5 && block.Length == 16 && digest != block
    modifies digest, block
    ensures Digest(digest) == Compress(old(Digest(digest)), old(block[..]))
  {
    ghost var s := Schedule(block[..]);
    ScheduleNext(block[..]);
    ghost var r := Trace(Digest(digest), s);
    TraceFollows(Digest(digest), s);
    assert Window(block[..], s, 0);
    AllRounds(digest, block, r, s);
  }

  // ---------------------------------------------------------------- a message in pieces

  method MakeBlock(p: array<byte>, block: array<word>)
    requires p.Length == 64 && block.Length == 16
    modifies block
    ensures block[..] == WordsOf(p[..])
  {
    var i := 0;
    while i < 16
      invariant 0 <= i <= 16 && p[..] == old(p[..])
      invariant forall k | 0 <= k < i :: block[k] == WordAt(p[..], k)
    {
      block[i] := (p[4 * i + 3] as word) | ((p[4 * i + 2] as word) << 8) | ((p[4 * i + 1] as word) << 16)
                  | ((p[4 * i] as word) << 24);
      i := i + 1;
    }
  }

  /** A whole number of blocks and one block more. */
  lemma OneMoreBlock(f: (Registers, seq<byte>) -> Registers, s: seq<byte>, b: seq<byte>)
    requires |s| % 64 == 0 && |b| == 64
    ensures Chain(f, s + b) == f(Chain(f, s), b)
  {
    assert (s + b)[..|s + b| - 64] == s && (s + b)[|s + b| - 64..] == b;
  }

  /** A count of blocks in a size_t of 64 bits. */
  function BlockCount(octets: nat): nat {
    octets / 64 % TWO_64
  }

  lemma BlocksWrap(octets: nat)
    ensures (BlockCount(octets) + 1) % TWO_64 == BlockCount(octets + 64)
  {
    assert (octets + 64) / 64 == octets / 64 + 1;
  }

  /** The number of bits hashed, in 64 bits, although `blocks` may have wrapped. */
  lemma TotalBits(octets: nat, blocks: nat, buflen: nat)
    requires octets % 64 == 0 && blocks == BlockCount(octets)
    ensures (blocks * 64 + buflen) * 8 % TWO_64 == 8 * (octets + buflen) % TWO_64
  {
    var q := octets / 64;
    assert q == blocks + TWO_64 * (q / TWO_64);
    Wrapped((blocks * 64 + buflen) * 8, 512 * (q / TWO_64));
  }

  lemma Wrapped(a: nat, k: nat)
    ensures (a + TWO_64 * k) % TWO_64 == a % TWO_64
  {
  }

  /** The rest of a message, a one bit, and zeros up to `size` octets. */
  function Filled(rest: seq<byte>, size: nat): (s: seq<byte>)
    requires |rest| < size
    ensures |s| == size
  {
    rest + [0x80] + Zeros(size - |rest| - 1)
  }

  /** A rest that leaves room for the length needs one block more. */
  lemma OneBlockLeft(f: (Registers, seq<byte>) -> Registers, base: seq<byte>, rest: seq<byte>, length: seq<byte>)
    requires |base| % 64 == 0 && |rest| < 56 && |length| == 8
    ensures var whole := base + rest + PaddingWith(|base + rest|, length);
      |whole| % 64 == 0 && Chain(f, whole) == f(Chain(f, base), Filled(rest, 56) + length)
  {
    hide Chain;
    assert ZerosAfter(|base + rest|) == 55 - |rest|;
    OneMoreBlock(f, base, Filled(rest, 56) + length);
    assert base + rest + PaddingWith(|base + rest|, length) == base + (Filled(rest, 56) + length);
  }

  /** A longer one needs two. */
  lemma TwoBlocksLeft(f: (Registers, seq<byte>) -> Registers, base: seq<byte>, rest: seq<byte>, length: seq<byte>)
    requires |base| % 64 == 0 && 56 <= |rest| < 64 && |length| == 8
    ensures var whole := base + rest + PaddingWith(|base + rest|, length);
      |whole| % 64 == 0 && Chain(f, whole) == f(f(Chain(f, base), Filled(rest, 64)), Zeros(56) + length)
  {
    hide PaddingWith, Chain;
    TwoBlocksPadding(base, rest, length);
    OneMoreBlock(f, base, Filled(rest, 64));
    OneMoreBlock(f, base + Filled(rest, 64), Zeros(56) + length);
  }

  lemma TwoBlocksPadding(base: seq<byte>, rest: seq<byte>, length: seq<byte>)
    requires |base| % 64 == 0 && 56 <= |rest| < 64
    ensures base + rest + PaddingWith(|base + rest|, length) == base + Filled(rest, 64) + (Zeros(56) + length)
  {
    assert ZerosAfter(|base + rest|) == 63 - |rest| + 56;
    assert Zeros(63 - |rest|) + Zeros(56) == Zeros(63 - |rest| + 56);
  }

  lemma LastBlocksAre(base: seq<byte>, rest: seq<byte>, bits: nat)
    requires |base| % 64 == 0 && |rest| < 64 && bits == 8 * |base + rest| % TWO_64
    ensures Blocks(base + rest + Padding(|base + rest|)) ==
      if |rest| < 56 then Compress(Blocks(base), WordsOf(Filled(rest, 56) + Length64(bits)))
      else Compress(Compress(Blocks(base), WordsOf(Filled(rest, 64))), WordsOf(Zeros(56) + Length64(bits)))
  {
    var length := Length64(bits);
    if |rest| < 56 {
      OneBlockLeft(HashBlock, base, rest, length);
    } else {
      TwoBlocksLeft(HashBlock, base, rest, length);
    }
  }

  /** Writing a length over the last two words of a block. */
  lemma LastWords(x: seq<byte>, hi: word, lo: word)
    requires |x| == 56
    ensures WordsOf(x + (OctetsOf(hi) + OctetsOf(lo))) == WordsOf(x + Zeros(8))[14 := hi][15 := lo]
  {
    var s := x + (OctetsOf(hi) + OctetsOf(lo));
    assert s[56..60] == OctetsOf(hi) && s[60..64] == OctetsOf(lo);
    assert WordAt(s, 14) == WordAt(s[56..60], 0) && WordAt(s, 15) == WordAt(s[60..64], 0);
  }

  lemma ZeroWords()
    ensures forall k | 0 <= k < 16 :: WordsOf(Zeros(64))[k] == 0
  {
    forall k | 0 <= k < 16 ensures WordsOf(Zeros(64))[k] == 0 {
      assert WordAt(Zeros(64), k) == 0;
    }
  }

  /** The first 14 words of the last block. */
  method Clear(block: array<word>)
    requires block.Length == 16
    modifies block
    ensures block[..14] == WordsOf(Zeros(56) + Zeros(8))[..14]
  {
    var i := 0;
    while i < 14
      invariant 0 <= i <= 14 && forall k | 0 <= k < i :: block[k] == 0
    {
      block[i] := 0;
      i := i + 1;
    }
    ZeroWords();
    assert Zeros(56) + Zeros(8) == Zeros(64);
  }

  lemma NextBlock(s: seq<byte>, b: seq<byte>)
    requires |s| % 64 == 0 && |b| == 64
    ensures |s + b| % 64 == 0 && Blocks(s + b) == Compress(Blocks(s), WordsOf(b))
  {
    OneMoreBlock(HashBlock, s, b);
  }

  class Sha1Context {
    var buflen: nat
    /** A size_t of 64 bits. */
    var blocks: nat
    const digest: array<word>
    const buf: array<byte>
    /** The octets of the blocks hashed so far. */
    ghost var hashed: seq<byte>

    /** All the octets taken so far. */
    ghost function Message(): seq<byte>
      requires buflen <= buf.Length
      reads this, buf
    {
      hashed + buf[..buflen]
    }

    /** The digest and the block count are those of `hashed`. */
    ghost predicate Hashed()
      reads this, digest
    {
      && digest.Length == 5 && buf.Length == 64
      && |hashed| % 64 == 0 && blocks == BlockCount(|hashed|) && Digest(digest) == Blocks(hashed)
    }

    ghost predicate Valid()
      reads this, digest, buf
    {
      Hashed() && buflen < 64
    }

    /** init. */
    constructor ()
      ensures Valid() && Message() == [] && fresh(digest) && fresh(buf)
    {
      buflen, blocks := 0, 0;
      digest := new word[] [0x67452301, 0xefcdab89, 0x98badcfe, 0x10325476, 0xc3d2e1f0];
      buf := new byte[64];
      hashed := [];
    }

    /** memcpy of some of the message to the buffer. */
    method Fill(data: seq<byte>)
      requires buf.Length == 64 && buflen + |data| <= 64
      modifies `buflen, buf
      ensures buflen == old(buflen) + |data| && Message() == old(Message()) + data
    {
      forall i | 0 <= i < |data| {
        buf[buflen + i] := data[i];
      }
      assert buf[..buflen + |data|] == old(buf[..buflen]) + data;
      Regroup(hashed, old(buf[..buflen]), data);
      buflen := buflen + |data|;
    }

    /** Hash the buffer. */
    method HashBuffer()
      requires digest.Length == 5 && buf.Length == 64
      modifies digest
      ensures Digest(digest) == Compress(old(Digest(digest)), WordsOf(buf[..]))
    {
      var block := new word[16];
      MakeBlock(buf, block);
      Transform(digest, block);
    }

    /** A full buffer is hashed and emptied. */
    method Flush()
      requires Hashed() && buflen == 64
      modifies `buflen, `blocks, `hashed, digest
      ensures Valid() && Message() == old(Message())
    {
      hide Blocks;
      ghost var next := hashed + buf[..];
      NextBlock(hashed, buf[..]);
      BlocksWrap(|hashed|);
      buflen := 0;
      HashBuffer();
      blocks := (blocks + 1) % TWO_64;
      hashed := next;
      assert Hashed();
      assert buf[..64] == buf[..] && next + buf[..0] == next;
    }

    method Update(data: seq<byte>)
      requires Valid()
      modifies this, digest, buf
      ensures Valid() && Message() == old(Message()) + data
    {
      hide Blocks;
      var p, size := 0, |data|;
      assert data[..0] == [] && Message() + [] == Message();
      while true
        invariant 0 <= p && 0 <= size && p + size == |data|
        invariant Valid() && Message() == old(Message()) + data[..p]
        decreases size
      {
        var n := if size < 64 - buflen then size else 64 - buflen;
        assert data[..p + n] == data[..p] + data[p..p + n];
        Regroup(old(Message()), data[..p], data[p..p + n]);
        Fill(data[p..p + n]);
        if buflen != 64 {
          assert data[..p + n] == data;
          return;
        }
        p := p + n;
        size := size - n;
        Flush();
      }
    }

    /** The buffer filled up with a one bit and zeros. */
    method Pad() returns (used: nat)
      requires Valid()
      modifies `buflen, buf
      ensures used == old(buflen) + 1
      ensures buf[..] == Filled(old(buf[..buflen]), 64)
    {
      ghost var rest := buf[..buflen];
      buf[buflen] := 0x80;
      buflen := buflen + 1;
      used := buflen;
      while buflen < 64
        invariant used <= buflen <= 64
        invariant buf[..buflen] == rest + [0x80] + Zeros(buflen - used)
      {
        buf[buflen] := 0;
        buflen := buflen + 1;
        assert buf[..buflen] == buf[..buflen - 1] + [0];
      }
      assert buf[..64] == buf[..];
    }

    /** The block that ends in the length. */
    method LastBlock(block: array<word>, totalBits: nat, ghost x: seq<byte>)
      requires digest.Length == 5 && block.Length == 16 && block != digest && totalBits < TWO_64
      requires |x| == 56 && block[..14] == WordsOf(x + Zeros(8))[..14]
      modifies digest, block
      ensures Digest(digest) == Compress(old(Digest(digest)), WordsOf(x + Length64(totalBits)))
    {
      var lo, hi := ToWord(totalBits % TWO_32), ToWord(totalBits / TWO_32);
      block[15] := lo;
      block[14] := hi;
      LastWords(x, hi, lo);
      assert block[..] == WordsOf(x + Zeros(8))[14 := hi][15 := lo];
      Transform(digest, block);
    }

    /** Padding that needs a block of its own: the buffer is hashed and the last block starts from zeros. */
    method ExtraBlock(block: array<word>)
      requires digest.Length == 5 && block.Length == 16 && block != digest
      modifies digest, block
      ensures Digest(digest) == Compress(old(Digest(digest)), old(block[..]))
      ensures block[..14] == WordsOf(Zeros(56) + Zeros(8))[..14]
    {
      Transform(digest, block);
      Clear(block);
    }

    /** The digest of the message. */
    method LastBlocks()
      requires Valid()
      modifies `buflen, digest, buf
      ensures Digest(digest) == Blocks(old(Message()) + Padding(|old(Message())|))
    {
      hide Blocks, Padding;
      var totalBits := (blocks * 64 + buflen) * 8 % TWO_64;
      TotalBits(|hashed|, blocks, buflen);
      ghost var rest := buf[..buflen];
      assert old(Message()) == hashed + rest;
      LastBlocksAre(hashed, rest, totalBits);
      var used := Pad();
      var block := new word[16];
      MakeBlock(buf, block);
      ghost var x := Zeros(56);
      if used > 56 {
        ExtraBlock(block);
      } else {
        x := Filled(rest, 56);
        assert Filled(rest, 64) == x + Zeros(8);
        assert block[..14] == block[..][..14];
      }
      LastBlock(block, totalBits, x);
    }

    /** finish. */
    method Finish(out: array<byte>)
      requires Valid() && out.Length == 20 && out != buf
      modifies this, digest, buf, out
      ensures out[..] == Sha1(old(Message()))
    {
      LastBlocks();
      Put(out);
    }

    /** Four octets of the output. */
    method PutWord(out: array<byte>, at: nat, w: word)
      requires at + 4 <= out.Length
      modifies out
      ensures out[..at] == old(out[..at]) && out[at..at + 4] == OctetsOf(w)
    {
      out[at + 3] := (w & 0xff) as byte;
      out[at + 2] := ((w >> 8) & 0xff) as byte;
      out[at + 1] := ((w >> 16) & 0xff) as byte;
      out[at] := ((w >> 24) & 0xff) as byte;
    }

    /** The words of the digest, most significant octet first. */
    method Put(out: array<byte>)
      requires digest.Length == 5 && out.Length == 20
      modifies out
      ensures out[..] == Octets(Digest(digest))
    {
      ghost var whole := Octets(Digest(digest));
      assert |whole| == 20;
      hide Octets, OctetsOf, Digest;
      var i := 0;
      while i < 5
        invariant 0 <= i <= 5 && out[..4 * i] == whole[..4 * i]
      {
        PutWord(out, 4 * i, digest[i]);
        DigestAt(digest, i);
        OctetsAt(Digest(digest), i);
        FourMore(out[..], whole, 4 * i);
        i := i + 1;
      }
      assert out[..20] == out[..];
    }
  }

  lemma DigestAt(digest: array<word>, i: nat)
    requires digest.Length == 5 && i < 5
    ensures var h := Digest(digest); [h.a, h.b, h.c, h.d, h.e][i] == digest[i]
  {
  }

  lemma FourMore(a: seq<byte>, b: seq<byte>, n: nat)
    requires n + 4 <= |a| && n + 4 <= |b| && a[..n] == b[..n] && a[n..n + 4] == b[n..n + 4]
    ensures a[..n + 4] == b[..n + 4]
  {
    assert a[..n + 4] == a[..n] + a[n..n + 4] && b[..n + 4] == b[..n] + b[n..n + 4];
  }

  /** The parts of five words end to end. */
  lemma PartAt(a: seq<byte>, b: seq<byte>, c: seq<byte>, d: seq<byte>, e: seq<byte>, i: nat)
    requires |a| == |b| == |c| == |d| == |e| == 4 && i < 5
    ensures (a + b + c + d + e)[4 * i..4 * i + 4] == [a, b, c, d, e][i]
  {
  }

  lemma OctetsAt(h: Registers, i: nat)
    requires i < 5
    ensures Octets(h)[4 * i..4 * i + 4] == OctetsOf([h.a, h.b, h.c, h.d, h.e][i])
  {
    hide OctetsOf;
    PartAt(OctetsOf(h.a), OctetsOf(h.b), OctetsOf(h.c), OctetsOf(h.d), OctetsOf(h.e), i);
  }

  /** A message hashed in any number of updates. */
  method HashPieces(pieces: seq<seq<byte>>) returns (digest: seq<byte>)
    ensures digest == Sha1(Flatten(pieces))
  {
    var ctx := new Sha1Context();
    var i := 0;
    assert pieces[0..] == pieces && [] + Flatten(pieces) == Flatten(pieces);
    while i < |pieces|
      invariant 0 <= i <= |pieces| && ctx.Valid() && fresh(ctx) && fresh(ctx.digest) && fresh(ctx.buf)
      invariant ctx.Message() + Flatten(pieces[i..]) == Flatten(pieces)
    {
      Regroup(ctx.Message(), pieces[i], Flatten(pieces[i + 1..]));
      assert pieces[i..][1..] == pieces[i + 1..];
      ctx.Update(pieces[i]);
      i := i + 1;
    }
    assert ctx.Message() + [] == ctx.Message();
    var out := new byte[20];
    ctx.Finish(out);
    digest := out[..];
  }
}
