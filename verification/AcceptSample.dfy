/** The sample handshake of section 1.3 of RFC 6455, by value: from the client's key to the accept string, through two
    blocks of the hash. */
module AcceptSample {
  import opened Bytes
  import opened Sha1Spec
  import opened Sha1
  import Base64
  import WebSocket

  // ---------------------------------------------------------------- a block, word by word

  /** Eight words of a schedule. */
  datatype Row = Row(w0: word, w1: word, w2: word, w3: word, w4: word, w5: word, w6: word, w7: word)

  function Word(r: Row, j: nat): word {
    match j
    case 0 => r.w0
    case 1 => r.w1
    case 2 => r.w2
    case 3 => r.w3
    case 4 => r.w4
    case 5 => r.w5
    case 6 => r.w6
    case _ => r.w7
  }

  /** A word of the schedule, from those 3, 8, 14 and 16 before it (section 6.1.2 of FIPS 180-4). */
  function From(x: word, y: word, z: word, u: word): word {
    Rol(x ^ y ^ z ^ u, 1)
  }

  /** The words behind two rows. */
  predicate NextRow(a: Row, b: Row, c: Row) {
    && c.w0 == From(b.w5, b.w0, a.w2, a.w0) && c.w1 == From(b.w6, b.w1, a.w3, a.w1)
    && c.w2 == From(b.w7, b.w2, a.w4, a.w2) && c.w3 == From(c.w0, b.w3, a.w5, a.w3)
    && c.w4 == From(c.w1, b.w4, a.w6, a.w4) && c.w5 == From(c.w2, b.w5, a.w7, a.w5)
    && c.w6 == From(c.w3, b.w6, b.w0, a.w6) && c.w7 == From(c.w4, b.w7, b.w1, a.w7)
  }

  function FourOn(h: Registers, t: nat, w: word, x: word, y: word, z: word): Registers {
    Round(Round(Round(Round(h, t, w), t + 1, x), t + 2, y), t + 3, z)
  }

  /** Eight rounds. */
  function RowOn(h: Registers, t: nat, r: Row): Registers {
    FourOn(FourOn(h, t, r.w0, r.w1, r.w2, r.w3), t + 4, r.w4, r.w5, r.w6, r.w7)
  }

  /** The schedule of a block, and the working variables before every eighth round and behind the last. */
  datatype Work = Work(rows: seq<Row>, turns: seq<Registers>)

  predicate Rows(k: Work) {
    |k.rows| == 10 && forall i | 0 <= i < 8 :: NextRow(k.rows[i], k.rows[i + 1], k.rows[i + 2])
  }

  predicate Turns(k: Work) {
    |k.rows| == 10 && |k.turns| == 11 && forall i | 0 <= i < 10 :: k.turns[i + 1] == RowOn(k.turns[i], 8 * i, k.rows[i])
  }

  function WordsFrom(k: Work): (s: seq<word>)
    requires |k.rows| == 10
    ensures |s| == 80
  {
    seq(80, t requires 0 <= t < 80 => Word(k.rows[t / 8], t % 8))
  }

  /** A word of three rows. */
  function Of(a: Row, b: Row, c: Row, q: nat): word {
    if q < 8 then Word(a, q) else if q < 16 then Word(b, q - 8) else Word(c, q - 16)
  }

  lemma RowFollows(a: Row, b: Row, c: Row, j: nat)
    requires NextRow(a, b, c) && j < 8
    ensures Of(a, b, c, 16 + j) == From(Of(a, b, c, 13 + j), Of(a, b, c, 8 + j), Of(a, b, c, 2 + j), Of(a, b, c, j))
  {
    hide From;
    match j
    case 0 =>
    case 1 =>
    case 2 =>
    case 3 =>
    case 4 =>
    case 5 =>
    case 6 =>
    case _ =>
  }

  lemma WordOf(k: Work, i: nat, q: nat)
    requires |k.rows| == 10 && i < 8 && q < 24
    ensures WordsFrom(k)[8 * i + q] == Of(k.rows[i], k.rows[i + 1], k.rows[i + 2], q)
  {
    hide Word;
    assert (8 * i + q) / 8 == i + q / 8 && (8 * i + q) % 8 == q % 8;
  }

  lemma RowsFollow(k: Work, t: nat)
    requires Rows(k) && 16 <= t < 80
    ensures Next(WordsFrom(k), t)
  {
    hide NextRow, Of, WordsFrom, Rol;
    var i, j := t / 8 - 2, t % 8;
    assert t == 8 * i + (16 + j);
    RowFollows(k.rows[i], k.rows[i + 1], k.rows[i + 2], j);
    WordOf(k, i, 16 + j);
    WordOf(k, i, 13 + j);
    WordOf(k, i, 8 + j);
    WordOf(k, i, 2 + j);
    WordOf(k, i, j);
  }

  lemma {:induction false} SameSchedule(s: seq<word>, u: seq<word>, t: nat)
    requires IsSchedule(s) && IsSchedule(u) && s[..16] == u[..16] && t < 80
    ensures s[t] == u[t]
    decreases t
  {
    if t < 16 {
      assert s[..16][t] == s[t] && u[..16][t] == u[t];
    } else {
      assert Next(s, t) && Next(u, t);
      SameSchedule(s, u, t - 3);
      SameSchedule(s, u, t - 8);
      SameSchedule(s, u, t - 14);
      SameSchedule(s, u, t - 16);
    }
  }

  /** Words that follow one another as they should are the schedule. */
  lemma ScheduleIs(m: seq<word>, k: Work)
    requires |m| == 16 && Rows(k) && WordsFrom(k)[..16] == m
    ensures Schedule(m) == WordsFrom(k)
  {
    var s := WordsFrom(k);
    forall t | 16 <= t < 80 ensures Next(s, t) {
      RowsFollow(k, t);
    }
    ScheduleNext(m);
    forall t | 0 <= t < 80 ensures Schedule(m)[t] == s[t] {
      SameSchedule(Schedule(m), s, t);
    }
  }

  lemma FourRounds(h: Registers, s: seq<word>, t: nat)
    requires t + 4 <= |s|
    ensures Rounds(h, s, t + 4) == FourOn(Rounds(h, s, t), t, s[t], s[t + 1], s[t + 2], s[t + 3])
  {
    assert Rounds(h, s, t + 2) == Round(Round(Rounds(h, s, t), t, s[t]), t + 1, s[t + 1]);
  }

  /** The words of a schedule from number `t` on. */
  predicate Holds(s: seq<word>, t: nat, r: Row)
    requires t + 8 <= |s|
  {
    && s[t] == r.w0 && s[t + 1] == r.w1 && s[t + 2] == r.w2 && s[t + 3] == r.w3
    && s[t + 4] == r.w4 && s[t + 5] == r.w5 && s[t + 6] == r.w6 && s[t + 7] == r.w7
  }

  lemma RowHeld(k: Work, i: nat)
    requires |k.rows| == 10 && i < 10
    ensures Holds(WordsFrom(k), 8 * i, k.rows[i])
  {
    hide WordsFrom;
    WordAt8(k, i, 0);
    WordAt8(k, i, 1);
    WordAt8(k, i, 2);
    WordAt8(k, i, 3);
    WordAt8(k, i, 4);
    WordAt8(k, i, 5);
    WordAt8(k, i, 6);
    WordAt8(k, i, 7);
  }

  lemma WordAt8(k: Work, i: nat, j: nat)
    requires |k.rows| == 10 && i < 10 && j < 8
    ensures WordsFrom(k)[8 * i + j] == Word(k.rows[i], j)
  {
    hide Word;
    assert (8 * i + j) / 8 == i && (8 * i + j) % 8 == j;
  }

  lemma EightRounds(h: Registers, s: seq<word>, t: nat, r: Row)
    requires t + 8 <= |s| && Holds(s, t, r)
    ensures Rounds(h, s, t + 8) == RowOn(Rounds(h, s, t), t, r)
  {
    hide Rounds, FourOn;
    FourRounds(h, s, t);
    FourRounds(h, s, t + 4);
    assert t + 4 + 4 == t + 8;
  }

  lemma {:induction false} TurnsAre(k: Work, i: nat)
    requires Turns(k) && i <= 10
    ensures Rounds(k.turns[0], WordsFrom(k), 8 * i) == k.turns[i]
    decreases i
  {
    if i > 0 {
      hide Rounds, RowOn, Word, Holds;
      TurnsAre(k, i - 1);
      RowHeld(k, i - 1);
      EightRounds(k.turns[0], WordsFrom(k), 8 * (i - 1), k.rows[i - 1]);
    }
  }

  /** A block is worked through as its tables say. */
  lemma CompressIs(m: seq<word>, k: Work)
    requires |m| == 16 && Rows(k) && Turns(k) && WordsFrom(k)[..16] == m
    ensures Compress(k.turns[0], m) == Plus(k.turns[0], k.turns[10])
  {
    ScheduleIs(m, k);
    TurnsAre(k, 10);
  }

  // ---------------------------------------------------------------- the first block

  // the schedule, and the working variables before every eighth round and behind the last
  const FW0 := Row(0x6447686c, 0x49484e68, 0x62584273, 0x5a534275, 0x6232356a, 0x5a513d3d, 0x32353845, 0x41464135)
  const FW1 := Row(0x2d453931, 0x342d3437, 0x44412d39, 0x3543412d, 0x43354142, 0x30444338, 0x35423131, 0x80000000)
  const FW2 := Row(0x363ca02c, 0x24e81236, 0x8856b441, 0x06fb3c92, 0x6fb4bcb6, 0x460b16e3, 0x599219ae, 0x35bf9369)
  const FW3 := Row(0x3267458e, 0xf828fd04, 0x753a96a7, 0x6336f612, 0xc3d66383, 0x06eb86f9, 0x73b4fd42, 0xa503c5b8)
  const FW4 := Row(0x15cdae35, 0x531e5dc5, 0x6fb6b7d0, 0x6c16e4ac, 0x4ddd36bd, 0x35d36946, 0xe8ae8b9c, 0x4a933ad0)
  const FW5 := Row(0xce8628b4, 0x415dba9e, 0x2792f049, 0x8e9b79e7, 0x79c425c5, 0x6353b49d, 0x00994218, 0x8a950ed1)
  const FW6 := Row(0xaf5d0b99, 0xfd9883de, 0x1ed8ffeb, 0xf007ff28, 0x425e3674, 0x059631c0, 0xad6c3c31, 0x860b71d7)
  const FW7 := Row(0x87bfc548, 0x3e64f92d, 0x8d0ab761, 0x34e1ee35, 0x0acf5108, 0xc2b479da, 0x6c93370a, 0xf7935ba1)
  const FW8 := Row(0xe91c91c1, 0xbed165a2, 0x4c3e4abe, 0x50d96238, 0xb6587dde, 0x1a2ee6e6, 0x2d335896, 0xf3495d0b)
  const FW9 := Row(0xf30e0a1d, 0x32ce5459, 0x7165e3b8, 0xab05ff94, 0xc5949f0b, 0xbcd84e4a, 0x07720392, 0xff3ff806)
  const FH0 := Registers(0x67452301, 0xefcdab89, 0x98badcfe, 0x10325476, 0xc3d2e1f0)
  const FH1 := Registers(0x2e0ce601, 0x73553e84, 0x5cc82e5a, 0xb7631f04, 0x14f80e6b)
  const FH2 := Registers(0xa004c468, 0xe922cc9d, 0xab86825b, 0xd86f6caf, 0x8d33ae61)
  const FH3 := Registers(0x250e26ef, 0xbeafd554, 0xb44bc2d5, 0xd4611c28, 0x0246ae5f)
  const FH4 := Registers(0xa6680a1f, 0xb7dabc8b, 0x4206d8f9, 0xc6aec70d, 0x95c7df60)
  const FH5 := Registers(0x2ba2c83e, 0xd0869081, 0x1a1d8209, 0xd3334889, 0x2779e4f2)
  const FH6 := Registers(0xabe1748a, 0xdee4b7a8, 0x5cbfccd3, 0x97d7cd14, 0xdb71a8f5)
  const FH7 := Registers(0x7e1242f2, 0x50c9104c, 0x131822b1, 0x49b1a4e5, 0x4439fd9c)
  const FH8 := Registers(0x685e2ff6, 0x840054d3, 0xe43c0363, 0x3350802e, 0x921cb616)
  const FH9 := Registers(0x7e65e044, 0x80d59773, 0x81ce06df, 0xa59b8126, 0x33e1963b)
  const FH10 := Registers(0xf48a5426, 0x835995e1, 0x25c11efb, 0x4a45c402, 0x9a73c2f2)
  const FIRST := Work(
    [FW0, FW1, FW2, FW3, FW4, FW5, FW6, FW7, FW8, FW9],
    [FH0, FH1, FH2, FH3, FH4, FH5, FH6, FH7, FH8, FH9, FH10])

  lemma FirstTurn0()
    ensures RowOn(FH0, 0, FW0) == FH1
  {
    assert FourOn(FH0, 0, FW0.w0, FW0.w1, FW0.w2, FW0.w3) ==
      Registers(0x53e039ac, 0xbe90ee8f, 0x4bde4fd5, 0xc0ff0047, 0x59d148c0);
  }

  lemma FirstTurn1()
    ensures RowOn(FH1, 8, FW1) == FH2
  {
    assert FourOn(FH1, 8, FW1.w0, FW1.w1, FW1.w2, FW1.w3) ==
      Registers(0x34ceb986, 0x5ff4238c, 0x7eab499d, 0x8cafac16, 0x4b833980);
  }

  lemma FirstTurn2()
    ensures RowOn(FH2, 16, FW2) == FH3
  {
    assert FourOn(FH2, 16, FW2.w0, FW2.w1, FW2.w2, FW2.w3) ==
      Registers(0x091ab97c, 0x8dc510b6, 0xdfaeca5a, 0x75f6bd5d, 0x2801311a);
  }

  lemma FirstTurn3()
    ensures RowOn(FH3, 24, FW3) == FH4
  {
    assert FourOn(FH3, 24, FW3.w0, FW3.w1, FW3.w2, FW3.w3) ==
      Registers(0x571f7d82, 0xef012f20, 0x1d22ce68, 0xc8f47246, 0xc94389bb);
  }

  lemma FirstTurn4()
    ensures RowOn(FH4, 32, FW4) == FH5
  {
    assert FourOn(FH4, 32, FW4.w0, FW4.w1, FW4.w2, FW4.w3) ==
      Registers(0x9de793c8, 0x149bb4d3, 0xbbaae8d6, 0x46b8d82a, 0xe99a0287);
  }

  lemma FirstTurn5()
    ensures RowOn(FH5, 40, FW5) == FH6
  {
    assert FourOn(FH5, 40, FW5.w0, FW5.w1, FW5.w2, FW5.w3) ==
      Registers(0x6dc6a3d7, 0x868829b7, 0x13d62691, 0x32e314b4, 0x8ae8b20f);
  }

  lemma FirstTurn6()
    ensures RowOn(FH6, 48, FW6) == FH7
  {
    assert FourOn(FH6, 48, FW6.w0, FW6.w1, FW6.w2, FW6.w3) ==
      Registers(0x10e7f671, 0x0e5d77c4, 0x8197e121, 0xdd443413, 0xaaf85d22);
  }

  lemma FirstTurn7()
    ensures RowOn(FH7, 56, FW7) == FH8
  {
    assert FourOn(FH7, 56, FW7.w0, FW7.w1, FW7.w2, FW7.w3) ==
      Registers(0x4872d85a, 0xd284f163, 0x83091f0b, 0x1bbdbfbd, 0x9f8490bc);
  }

  lemma FirstTurn8()
    ensures RowOn(FH8, 64, FW8) == FH9
  {
    assert FourOn(FH8, 64, FW8.w0, FW8.w1, FW8.w2, FW8.w3) ==
      Registers(0xcf8658ec, 0x53131a40, 0xf0f0b916, 0x2933b806, 0x9a178bfd);
  }

  lemma FirstTurn9()
    ensures RowOn(FH9, 72, FW9) == FH10
  {
    assert FourOn(FH9, 72, FW9.w0, FW9.w1, FW9.w2, FW9.w3) ==
      Registers(0x69cf0bca, 0xe20983f9, 0x050ea0e2, 0xd8a39ed1, 0x1f997811);
  }

  lemma FirstRows()
    ensures Rows(FIRST)
  {
    hide NextRow;
    FirstRowsEarly();
    FirstRowsLate();
    forall i | 0 <= i < 8 ensures NextRow(FIRST.rows[i], FIRST.rows[i + 1], FIRST.rows[i + 2]) {
      assert i == 0 || i == 1 || i == 2 || i == 3 || i == 4 || i == 5 || i == 6 || i == 7;
    }
  }

  lemma FirstRowsEarly()
    ensures NextRow(FW0, FW1, FW2) && NextRow(FW1, FW2, FW3)
    ensures NextRow(FW2, FW3, FW4) && NextRow(FW3, FW4, FW5)
  {
  }

  lemma FirstRowsLate()
    ensures NextRow(FW4, FW5, FW6) && NextRow(FW5, FW6, FW7)
    ensures NextRow(FW6, FW7, FW8) && NextRow(FW7, FW8, FW9)
  {
  }

  lemma FirstTurns()
    ensures Turns(FIRST)
  {
    hide RowOn;
    FirstTurn0();
    FirstTurn1();
    FirstTurn2();
    FirstTurn3();
    FirstTurn4();
    FirstTurn5();
    FirstTurn6();
    FirstTurn7();
    FirstTurn8();
    FirstTurn9();
    forall i | 0 <= i < 10 ensures FIRST.turns[i + 1] == RowOn(FIRST.turns[i], 8 * i, FIRST.rows[i]) {
      assert i == 0 || i == 1 || i == 2 || i == 3 || i == 4 || i == 5 || i == 6 || i == 7 || i == 8 || i == 9;
    }
  }

  // ---------------------------------------------------------------- the second block

  const SW0 := Row(0x00000000, 0x00000000, 0x00000000, 0x00000000, 0x00000000, 0x00000000, 0x00000000, 0x00000000)
  const SW1 := Row(0x00000000, 0x00000000, 0x00000000, 0x00000000, 0x00000000, 0x00000000, 0x00000000, 0x000001e0)
  const SW2 := Row(0x00000000, 0x00000000, 0x000003c0, 0x00000000, 0x00000000, 0x00000780, 0x00000000, 0x000003c0)
  const SW3 := Row(0x00000f00, 0x00000000, 0x00000000, 0x00001e00, 0x00000000, 0x00000cc0, 0x00003c00, 0x00000440)
  const SW4 := Row(0x00000000, 0x00007800, 0x00000f00, 0x00003300, 0x0000f000, 0x00000f00, 0x00000000, 0x0001ef00)
  const SW5 := Row(0x00000000, 0x0000cc00, 0x0003c000, 0x00004380, 0x00000000, 0x00078f00, 0x0000ff00, 0x00032680)
  const SW6 := Row(0x000f0000, 0x0000f000, 0x00003300, 0x001eff00, 0x00000000, 0x000cb800, 0x003c0000, 0x00040b00)
  const SW7 := Row(0x0000f000, 0x0078ff00, 0x000ff000, 0x00338700, 0x00f00000, 0x000fc300, 0x0000f000, 0x01efbb00)
  const SW8 := Row(0x00000000, 0x00cc0000, 0x03c0f000, 0x00438000, 0x00000000, 0x078f0000, 0x00ff0000, 0x03269e00)
  const SW9 := Row(0x0f000000, 0x00f0f000, 0x00333c00, 0x1eff8800, 0x00000000, 0x0cb88800, 0x3c00f000, 0x040a4a00)
  const SH0 := Registers(0x5bcf7727, 0x7327416a, 0xbe7bfbf9, 0x5a781878, 0x5e46a4e2)
  const SH1 := Registers(0x25c018be, 0xb3bbcafe, 0xe4e97bee, 0xb90f74bc, 0xc5615548)
  const SH2 := Registers(0x986df268, 0x990b7be7, 0xab50fce7, 0x195db4b7, 0x4941806b)
  const SH3 := Registers(0x53c73650, 0x3e5179e7, 0x103ef3e6, 0xc48c56ca, 0x4a8022d4)
  const SH4 := Registers(0x3cf6eb58, 0xf4ddd7b7, 0xc90fb815, 0xbd5f2d4f, 0xe4c9f7db)
  const SH5 := Registers(0x6f698f1a, 0xc6ff0cd3, 0xde5ab7bc, 0x5f6f3cbb, 0x1da48a85)
  const SH6 := Registers(0xa3ef857e, 0xc8cda3da, 0xcef6480e, 0xff1ef4d7, 0xc7a4d2b3)
  const SH7 := Registers(0xa1b68141, 0x660dd0b1, 0x0b1cef5e, 0xe795018d, 0xd7f8a8f6)
  const SH8 := Registers(0xa5937450, 0xd5ef1ed7, 0xc444cbe3, 0xddd22788, 0x558467c6)
  const SH9 := Registers(0xc90888ca, 0xf6d1afee, 0x6fce9fe5, 0x538d8f6e, 0x025e9447)
  const SH10 := Registers(0x57aad805, 0x4d3b0dac, 0xd27a4a0d, 0x74c040cd, 0x54782008)
  const SECOND := Work(
    [SW0, SW1, SW2, SW3, SW4, SW5, SW6, SW7, SW8, SW9],
    [SH0, SH1, SH2, SH3, SH4, SH5, SH6, SH7, SH8, SH9, SH10])

  lemma SecondTurn0()
    ensures RowOn(SH0, 0, SW0) == SH1
  {
    assert FourOn(SH0, 0, SW0.w0, SW0.w1, SW0.w2, SW0.w3) ==
      Registers(0x15855523, 0xf9fb295d, 0x061801ae, 0x9b4cd737, 0xd6f3ddc9);
  }

  lemma SecondTurn1()
    ensures RowOn(SH1, 8, SW1) == SH2
  {
    assert FourOn(SH1, 8, SW1.w0, SW1.w1, SW1.w2, SW1.w3) ==
      Registers(0x250601ad, 0x4ce92417, 0xc2c20530, 0xe0251964, 0x8970062f);
  }

  lemma SecondTurn2()
    ensures RowOn(SH2, 16, SW2) == SH3
  {
    assert FourOn(SH2, 16, SW2.w0, SW2.w1, SW2.w2, SW2.w3) ==
      Registers(0x2a008b51, 0x2f193a09, 0x9c8663c1, 0x8eb5d103, 0x261b7c9a);
  }

  lemma SecondTurn3()
    ensures RowOn(SH3, 24, SW3) == SH4
  {
    assert FourOn(SH3, 24, SW3.w0, SW3.w1, SW3.w2, SW3.w3) ==
      Registers(0x9327df6f, 0xd2e726da, 0x591b19df, 0x87493112, 0x14f1cd94);
  }

  lemma SecondTurn4()
    ensures RowOn(SH4, 32, SW4) == SH5
  {
    assert FourOn(SH4, 32, SW4.w0, SW4.w1, SW4.w2, SW4.w3) ==
      Registers(0x76922a14, 0x942ac4d3, 0xa5b67967, 0x1cc3a45c, 0x0f3dbad6);
  }

  lemma SecondTurn5()
    ensures RowOn(SH5, 40, SW5) == SH6
  {
    assert FourOn(SH5, 40, SW5.w0, SW5.w1, SW5.w2, SW5.w3) ==
      Registers(0x1e934acf, 0xedfcd85b, 0xbf0d0e80, 0x5e1c59da, 0x9bda63c6);
  }

  lemma SecondTurn6()
    ensures RowOn(SH6, 48, SW6) == SH7
  {
    assert FourOn(SH6, 48, SW6.w0, SW6.w1, SW6.w2, SW6.w3) ==
      Registers(0x5fe2a3db, 0xa3abe4f5, 0x6945bc99, 0x68e7c810, 0xa8fbe15f);
  }

  lemma SecondTurn7()
    ensures RowOn(SH7, 56, SW7) == SH8
  {
    assert FourOn(SH7, 56, SW7.w0, SW7.w1, SW7.w2, SW7.w3) ==
      Registers(0x56119f19, 0x085eb2fe, 0x484a25c5, 0xc140cfe8, 0x686da050);
  }

  lemma SecondTurn8()
    ensures RowOn(SH8, 64, SW8) == SH9
  {
    assert FourOn(SH8, 64, SW8.w0, SW8.w1, SW8.w2, SW8.w3) ==
      Registers(0x097a511c, 0xc97f1968, 0xc5e88bbd, 0x27b3e99b, 0x2964dd14);
  }

  lemma SecondTurn9()
    ensures RowOn(SH9, 72, SW9) == SH10
  {
    assert FourOn(SH9, 72, SW9.w0, SW9.w1, SW9.w2, SW9.w3) ==
      Registers(0x51e08021, 0xe22b36d1, 0x09be6664, 0xf1d94bb6, 0xb2422232);
  }

  lemma SecondRows()
    ensures Rows(SECOND)
  {
    hide NextRow;
    SecondRowsEarly();
    SecondRowsLate();
    forall i | 0 <= i < 8 ensures NextRow(SECOND.rows[i], SECOND.rows[i + 1], SECOND.rows[i + 2]) {
      assert i == 0 || i == 1 || i == 2 || i == 3 || i == 4 || i == 5 || i == 6 || i == 7;
    }
  }

  lemma SecondRowsEarly()
    ensures NextRow(SW0, SW1, SW2) && NextRow(SW1, SW2, SW3)
    ensures NextRow(SW2, SW3, SW4) && NextRow(SW3, SW4, SW5)
  {
  }

  lemma SecondRowsLate()
    ensures NextRow(SW4, SW5, SW6) && NextRow(SW5, SW6, SW7)
    ensures NextRow(SW6, SW7, SW8) && NextRow(SW7, SW8, SW9)
  {
  }

  lemma SecondTurns()
    ensures Turns(SECOND)
  {
    hide RowOn;
    SecondTurn0();
    SecondTurn1();
    SecondTurn2();
    SecondTurn3();
    SecondTurn4();
    SecondTurn5();
    SecondTurn6();
    SecondTurn7();
    SecondTurn8();
    SecondTurn9();
    forall i | 0 <= i < 10 ensures SECOND.turns[i + 1] == RowOn(SECOND.turns[i], 8 * i, SECOND.rows[i]) {
      assert i == 0 || i == 1 || i == 2 || i == 3 || i == 4 || i == 5 || i == 6 || i == 7 || i == 8 || i == 9;
    }
  }

  // ---------------------------------------------------------------- from octets to words

  /** Words, the first octet of each the most significant. */
  function Cat(ws: seq<word>): (s: seq<byte>)
    ensures |s| == 4 * |ws|
  {
    if |ws| == 0 then [] else OctetsOf(ws[0]) + Cat(ws[1..])
  }

  lemma {:induction false} CatTwo(x: seq<word>, y: seq<word>)
    ensures Cat(x + y) == Cat(x) + Cat(y)
    decreases |x|
  {
    if |x| == 0 {
      assert x + y == y;
    } else {
      assert (x + y)[1..] == x[1..] + y;
      CatTwo(x[1..], y);
      Regroup(OctetsOf(x[0]), Cat(x[1..]), Cat(y));
    }
  }

  lemma SameFour(s: seq<byte>, k: nat, u: seq<byte>, j: nat)
    requires k + 4 <= |s| && j + 4 <= |u| && s[k..k + 4] == u[j..j + 4]
    ensures s[k] == u[j] && s[k + 1] == u[j + 1] && s[k + 2] == u[j + 2] && s[k + 3] == u[j + 3]
  {
    var x := s[k..k + 4];
    assert s[k] == x[0] && s[k + 1] == x[1] && s[k + 2] == x[2] && s[k + 3] == x[3];
  }

  lemma SameWord(s: seq<byte>, k: nat, u: seq<byte>, j: nat)
    requires 4 * k + 4 <= |s| && 4 * j + 4 <= |u| && s[4 * k..4 * k + 4] == u[4 * j..4 * j + 4]
    ensures WordAt(s, k) == WordAt(u, j)
  {
    hide Big;
    SameFour(s, 4 * k, u, 4 * j);
  }

  lemma {:induction false} CatAt(ws: seq<word>, k: nat)
    requires k < |ws|
    ensures WordAt(Cat(ws), k) == ws[k]
    decreases k
  {
    hide WordAt, OctetsOf;
    var s, rest := Cat(ws), Cat(ws[1..]);
    assert s == OctetsOf(ws[0]) + rest;
    if k == 0 {
      SameWord(s, 0, OctetsOf(ws[0]), 0);
    } else {
      CatAt(ws[1..], k - 1);
      SameWord(s, k, rest, k - 1);
    }
  }

  lemma WordsOfCat(ws: seq<word>)
    requires |ws| == 16
    ensures WordsOf(Cat(ws)) == ws
  {
    forall k: nat | k < 16 ensures WordAt(Cat(ws), k) == ws[k] {
      CatAt(ws, k);
    }
  }

  // ---------------------------------------------------------------- the sample

  // "dGhlIHNhbXBsZSBub25jZQ=="
  const KEY: seq<byte> := [
    0x64, 0x47, 0x68, 0x6c, 0x49, 0x48, 0x4e, 0x68, 0x62, 0x58, 0x42, 0x73,
    0x5a, 0x53, 0x42, 0x75, 0x62, 0x32, 0x35, 0x6a, 0x5a, 0x51, 0x3d, 0x3d]

  // "s3pPLMBiTxaQ9kYGzzhZRbK+xOo="
  const ACCEPT: seq<byte> := [
    0x73, 0x33, 0x70, 0x50, 0x4c, 0x4d, 0x42, 0x69, 0x54, 0x78, 0x61, 0x51, 0x39, 0x6b,
    0x59, 0x47, 0x7a, 0x7a, 0x68, 0x5a, 0x52, 0x62, 0x4b, 0x2b, 0x78, 0x4f, 0x6f, 0x3d]

  lemma CatThree(x: word, y: word, z: word)
    ensures Cat([x, y, z]) == OctetsOf(x) + OctetsOf(y) + OctetsOf(z)
  {
    hide OctetsOf;
    assert [x, y, z][1..] == [y, z] && [y, z][1..] == [z] && [z][1..] == [];
    assert Cat([y, z]) == OctetsOf(y) + (OctetsOf(z) + []);
    Regroup(OctetsOf(x), OctetsOf(y), OctetsOf(z));
  }

  // "dGhlIHNhbXBs"
  const KEY_1: seq<byte> := [0x64, 0x47, 0x68, 0x6c, 0x49, 0x48, 0x4e, 0x68, 0x62, 0x58, 0x42, 0x73]

  lemma Key1Words()
    ensures KEY_1 == Cat([0x6447686c, 0x49484e68, 0x62584273])
  {
    CatThree(0x6447686c, 0x49484e68, 0x62584273);
    assert OctetsOf(0x6447686c) == [0x64, 0x47, 0x68, 0x6c];
    assert OctetsOf(0x49484e68) == [0x49, 0x48, 0x4e, 0x68];
    assert OctetsOf(0x62584273) == [0x62, 0x58, 0x42, 0x73];
  }

  // "ZSBub25jZQ=="
  const KEY_2: seq<byte> := [0x5a, 0x53, 0x42, 0x75, 0x62, 0x32, 0x35, 0x6a, 0x5a, 0x51, 0x3d, 0x3d]

  lemma Key2Words()
    ensures KEY_2 == Cat([0x5a534275, 0x6232356a, 0x5a513d3d])
  {
    CatThree(0x5a534275, 0x6232356a, 0x5a513d3d);
    assert OctetsOf(0x5a534275) == [0x5a, 0x53, 0x42, 0x75];
    assert OctetsOf(0x6232356a) == [0x62, 0x32, 0x35, 0x6a];
    assert OctetsOf(0x5a513d3d) == [0x5a, 0x51, 0x3d, 0x3d];
  }

  // "258EAFA5-E91"
  const GUID_1: seq<byte> := [0x32, 0x35, 0x38, 0x45, 0x41, 0x46, 0x41, 0x35, 0x2d, 0x45, 0x39, 0x31]

  lemma Guid1Words()
    ensures GUID_1 == Cat([0x32353845, 0x41464135, 0x2d453931])
  {
    CatThree(0x32353845, 0x41464135, 0x2d453931);
    assert OctetsOf(0x32353845) == [0x32, 0x35, 0x38, 0x45];
    assert OctetsOf(0x41464135) == [0x41, 0x46, 0x41, 0x35];
    assert OctetsOf(0x2d453931) == [0x2d, 0x45, 0x39, 0x31];
  }

  // "4-47DA-95CA-"
  const GUID_2: seq<byte> := [0x34, 0x2d, 0x34, 0x37, 0x44, 0x41, 0x2d, 0x39, 0x35, 0x43, 0x41, 0x2d]

  lemma Guid2Words()
    ensures GUID_2 == Cat([0x342d3437, 0x44412d39, 0x3543412d])
  {
    CatThree(0x342d3437, 0x44412d39, 0x3543412d);
    assert OctetsOf(0x342d3437) == [0x34, 0x2d, 0x34, 0x37];
    assert OctetsOf(0x44412d39) == [0x44, 0x41, 0x2d, 0x39];
    assert OctetsOf(0x3543412d) == [0x35, 0x43, 0x41, 0x2d];
  }

  // "C5AB0DC85B11"
  const GUID_3: seq<byte> := [0x43, 0x35, 0x41, 0x42, 0x30, 0x44, 0x43, 0x38, 0x35, 0x42, 0x31, 0x31]

  lemma Guid3Words()
    ensures GUID_3 == Cat([0x43354142, 0x30444338, 0x35423131])
  {
    CatThree(0x43354142, 0x30444338, 0x35423131);
    assert OctetsOf(0x43354142) == [0x43, 0x35, 0x41, 0x42];
    assert OctetsOf(0x30444338) == [0x30, 0x44, 0x43, 0x38];
    assert OctetsOf(0x35423131) == [0x35, 0x42, 0x31, 0x31];
  }

  lemma KeyPieces()
    ensures KEY == KEY_1 + KEY_2
  {
  }

  lemma GuidPieces()
    ensures WebSocket.GUID == GUID_1 + GUID_2 + GUID_3
  {
    Regroup(GUID_1, GUID_2, GUID_3);
    assert WebSocket.GUID == GUID_1 + (GUID_2 + GUID_3);
  }

  // the key, the GUID, and the octet that begins the padding
  const FIRST_WORDS: seq<word> := [
    0x6447686c, 0x49484e68, 0x62584273, 0x5a534275, 0x6232356a, 0x5a513d3d, 0x32353845, 0x41464135,
    0x2d453931, 0x342d3437, 0x44412d39, 0x3543412d, 0x43354142, 0x30444338, 0x35423131, 0x80000000]

  // the end of the padding, and the length in bits
  const SECOND_WORDS: seq<word> := [0, 0, 0, 0, 0, 0, 0, 0, 0, 0, 0, 0, 0, 0, 0, 480]

  lemma FiveCat(a: seq<word>, b: seq<word>, c: seq<word>, d: seq<word>, e: seq<word>, f: seq<word>)
    ensures Cat(a + b + (c + d + e) + f) == Cat(a) + Cat(b) + (Cat(c) + Cat(d) + Cat(e)) + Cat(f)
  {
    CatTwo(a + b + (c + d + e), f);
    CatTwo(a + b, c + d + e);
    CatTwo(a, b);
    CatTwo(c + d, e);
    CatTwo(c, d);
  }

  lemma PaddedWord()
    ensures Cat([0x80000000]) == [0x80] + Zeros(3)
  {
    assert OctetsOf(0x80000000) == [0x80, 0, 0, 0] && [0x80000000 as word][1..] == [];
  }

  lemma FilledIs(s: seq<byte>)
    requires |s| == 60
    ensures Filled(s, 64) == s + ([0x80] + Zeros(3))
  {
  }

  lemma FirstOctets()
    ensures Filled(KEY + WebSocket.GUID, 64) == Cat(FIRST_WORDS)
  {
    hide Cat, Filled, Zeros;
    var a, b := [0x6447686c, 0x49484e68, 0x62584273], [0x5a534275, 0x6232356a, 0x5a513d3d];
    var c, d := [0x32353845, 0x41464135, 0x2d453931], [0x342d3437, 0x44412d39, 0x3543412d];
    var e := [0x43354142, 0x30444338, 0x35423131];
    KeyPieces();
    GuidPieces();
    Key1Words();
    Key2Words();
    Guid1Words();
    Guid2Words();
    Guid3Words();
    PaddedWord();
    FiveCat(a, b, c, d, e, [0x80000000]);
    assert a + b + (c + d + e) + [0x80000000] == FIRST_WORDS;
    FilledIs(KEY + WebSocket.GUID);
  }

  lemma {:induction false} CatZeros(n: nat)
    ensures Cat(seq(n, _ => 0)) == Zeros(4 * n)
    decreases n
  {
    if n > 0 {
      var s: seq<word> := seq(n, _ => 0);
      assert s[1..] == seq(n - 1, _ => 0) && OctetsOf(0) == [0, 0, 0, 0];
      CatZeros(n - 1);
    }
  }

  lemma LengthOctets()
    ensures Length64(480) == OctetsOf(0) + OctetsOf(480)
  {
    assert 480 / TWO_32 == 0 && 480 % TWO_32 == 480;
    assert ToWord(0) == 0 && ToWord(480) == 480;
  }

  lemma SecondOctets()
    ensures Zeros(56) + Length64(480) == Cat(SECOND_WORDS)
  {
    hide OctetsOf;
    var s: seq<word> := seq(14, _ => 0);
    CatZeros(14);
    LengthOctets();
    assert [0 as word, 480][1..] == [480 as word] && [480 as word][1..] == [];
    assert Cat([0, 480]) == OctetsOf(0) + (OctetsOf(480) + []);
    CatTwo(s, [0, 480]);
    assert s + [0, 480] == SECOND_WORDS;
  }

  lemma FirstIs()
    ensures Compress(INITIAL, FIRST_WORDS) == SH0
  {
    FirstRows();
    FirstTurns();
    FirstBegins();
    CompressIs(FIRST_WORDS, FIRST);
    FirstSum();
  }

  lemma FirstBegins()
    ensures WordsFrom(FIRST)[..16] == FIRST_WORDS
  {
    hide Word;
    RowWords(FIRST);
    assert RowsOf(FW0, FW1) == FIRST_WORDS;
  }

  lemma SecondBegins()
    ensures WordsFrom(SECOND)[..16] == SECOND_WORDS
  {
    hide Word;
    RowWords(SECOND);
    assert RowsOf(SW0, SW1) == SECOND_WORDS;
  }

  function RowsOf(a: Row, b: Row): seq<word> {
    [a.w0, a.w1, a.w2, a.w3, a.w4, a.w5, a.w6, a.w7, b.w0, b.w1, b.w2, b.w3, b.w4, b.w5, b.w6, b.w7]
  }

  lemma RowWords(k: Work)
    requires |k.rows| == 10
    ensures WordsFrom(k)[..16] == RowsOf(k.rows[0], k.rows[1])
  {
    hide WordsFrom;
    RowHeld(k, 0);
    RowHeld(k, 1);
  }

  lemma FirstSum()
    ensures Plus(FH0, FH10) == SH0 && FH0 == INITIAL
  {
  }

  const DIGEST: seq<byte> := [
    0xb3, 0x7a, 0x4f, 0x2c, 0xc0, 0x62, 0x4f, 0x16, 0x90, 0xf6,
    0x46, 0x06, 0xcf, 0x38, 0x59, 0x45, 0xb2, 0xbe, 0xc4, 0xea]

  const LAST: Registers := Registers(0xb37a4f2c, 0xc0624f16, 0x90f64606, 0xcf385945, 0xb2bec4ea)

  lemma SecondSum()
    ensures Plus(SH0, SH10) == LAST
  {
  }

  lemma SecondIs()
    ensures Compress(SH0, SECOND_WORDS) == LAST
  {
    SecondRows();
    SecondTurns();
    SecondBegins();
    CompressIs(SECOND_WORDS, SECOND);
    SecondSum();
  }

  lemma LastOctets()
    ensures Octets(LAST) == DIGEST
  {
    assert OctetsOf(0xb37a4f2c) == [0xb3, 0x7a, 0x4f, 0x2c];
    assert OctetsOf(0xc0624f16) == [0xc0, 0x62, 0x4f, 0x16];
    assert OctetsOf(0x90f64606) == [0x90, 0xf6, 0x46, 0x06];
    assert OctetsOf(0xcf385945) == [0xcf, 0x38, 0x59, 0x45];
    assert OctetsOf(0xb2bec4ea) == [0xb2, 0xbe, 0xc4, 0xea];
  }

  lemma NoBlocks()
    ensures Blocks([]) == INITIAL
  {
  }

  /** The SHA-1 digest of the sample key and the GUID. */
  lemma SampleDigest()
    ensures Sha1Spec.Sha1(KEY + WebSocket.GUID) == DIGEST
  {
    hide Blocks, Compress, Padding, Filled, Zeros, Length64, WordsOf, Cat;
    var m := KEY + WebSocket.GUID;
    NoBlocks();
    assert [] + m == m && |m| == 60;
    LastBlocksAre([], m, 480);
    FirstOctets();
    SecondOctets();
    WordsOfCat(FIRST_WORDS);
    WordsOfCat(SECOND_WORDS);
    FirstIs();
    SecondIs();
    LastOctets();
  }

  lemma EncodeOn(a: byte, b: byte, c: byte, rest: seq<byte>)
    ensures Base64.Encode([a, b, c] + rest) == Base64.EncodeThree(a, b, c) + Base64.Encode(rest)
  {
    assert ([a, b, c] + rest)[3..] == rest;
  }

  lemma Quads()
    ensures Base64.EncodeThree(0xb3, 0x7a, 0x4f) == [0x73, 0x33, 0x70, 0x50]
    ensures Base64.EncodeThree(0x2c, 0xc0, 0x62) == [0x4c, 0x4d, 0x42, 0x69]
    ensures Base64.EncodeThree(0x4f, 0x16, 0x90) == [0x54, 0x78, 0x61, 0x51]
    ensures Base64.EncodeThree(0xf6, 0x46, 0x06) == [0x39, 0x6b, 0x59, 0x47]
    ensures Base64.EncodeThree(0xcf, 0x38, 0x59) == [0x7a, 0x7a, 0x68, 0x5a]
    ensures Base64.EncodeThree(0x45, 0xb2, 0xbe) == [0x52, 0x62, 0x4b, 0x2b]
    ensures Base64.Encode([0xc4, 0xea]) == [0x78, 0x4f, 0x6f, 0x3d]
  {
  }

  lemma EndEncoded()
    ensures Base64.Encode([0xcf, 0x38, 0x59, 0x45, 0xb2, 0xbe, 0xc4, 0xea])
            == [0x7a, 0x7a, 0x68, 0x5a, 0x52, 0x62, 0x4b, 0x2b, 0x78, 0x4f, 0x6f, 0x3d]
  {
    hide Base64.Encode, Base64.EncodeThree;
    Quads();
    var t := [0x45, 0xb2, 0xbe] + [0xc4, 0xea];
    EncodeOn(0x45, 0xb2, 0xbe, [0xc4, 0xea]);
    EncodeOn(0xcf, 0x38, 0x59, t);
    assert [0xcf, 0x38, 0x59, 0x45, 0xb2, 0xbe, 0xc4, 0xea] == [0xcf, 0x38, 0x59] + t;
  }

  const DIGEST_END: seq<byte> := [0x4f, 0x16, 0x90, 0xf6, 0x46, 0x06, 0xcf, 0x38, 0x59, 0x45, 0xb2, 0xbe, 0xc4, 0xea]

  // "TxaQ9kYGzzhZRbK+xOo="
  const ACCEPT_END: seq<byte> := [
    0x54, 0x78, 0x61, 0x51, 0x39, 0x6b, 0x59, 0x47, 0x7a, 0x7a, 0x68, 0x5a, 0x52, 0x62, 0x4b, 0x2b, 0x78, 0x4f, 0x6f, 0x3d]

  lemma MoreEncoded()
    ensures Base64.Encode(DIGEST_END) == ACCEPT_END
  {
    hide Base64.Encode, Base64.EncodeThree;
    Quads();
    EndEncoded();
    var s := [0xcf, 0x38, 0x59, 0x45, 0xb2, 0xbe, 0xc4, 0xea];
    var t := [0xf6, 0x46, 0x06] + s;
    EncodeOn(0xf6, 0x46, 0x06, s);
    EncodeOn(0x4f, 0x16, 0x90, t);
    assert [0x4f, 0x16, 0x90] + t == DIGEST_END;
  }

  lemma DigestParts()
    ensures DIGEST == [0xb3, 0x7a, 0x4f] + ([0x2c, 0xc0, 0x62] + DIGEST_END)
  {
  }

  lemma AcceptParts()
    ensures ACCEPT == [0x73, 0x33, 0x70, 0x50] + ([0x4c, 0x4d, 0x42, 0x69] + ACCEPT_END)
  {
  }

  lemma AcceptIs()
    ensures Base64.Encode(DIGEST) == ACCEPT
  {
    hide Base64.Encode, Base64.EncodeThree;
    Quads();
    MoreEncoded();
    EncodeOn(0x2c, 0xc0, 0x62, DIGEST_END);
    EncodeOn(0xb3, 0x7a, 0x4f, [0x2c, 0xc0, 0x62] + DIGEST_END);
    DigestParts();
    AcceptParts();
  }

  /** The accept string of the sample. */
  method SampleAccept() returns (accept: seq<byte>)
    ensures accept == ACCEPT
  {
    SampleDigest();
    AcceptIs();
    Base64.RoundTrip(DIGEST);
    accept := WebSocket.GenerateAcceptString(KEY);
  }
}
