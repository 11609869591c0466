/** Request methods: the parser's prefix trie reads exactly the names of the method table. */
module LlhttpMethods {
  import opened Bytes
  import opened LlhttpTypes
  import opened LlhttpTables
  import opened Llparse
  import opened LlparseBulk
  import opened LlhttpProgram

  const NODES := 50
  const METHODS := 34

  /** The names of HTTP_METHOD_MAP, by number. */
  function MethodName(m: nat): seq<byte> {
    match m
    case 0 => [0x44, 0x45, 0x4c, 0x45, 0x54, 0x45] // DELETE
    case 1 => [0x47, 0x45, 0x54] // GET
    case 2 => [0x48, 0x45, 0x41, 0x44] // HEAD
    case 3 => [0x50, 0x4f, 0x53, 0x54] // POST
    case 4 => [0x50, 0x55, 0x54] // PUT
    case 5 => [0x43, 0x4f, 0x4e, 0x4e, 0x45, 0x43, 0x54] // CONNECT
    case 6 => [0x4f, 0x50, 0x54, 0x49, 0x4f, 0x4e, 0x53] // OPTIONS
    case 7 => [0x54, 0x52, 0x41, 0x43, 0x45] // TRACE
    case 8 => [0x43, 0x4f, 0x50, 0x59] // COPY
    case 9 => [0x4c, 0x4f, 0x43, 0x4b] // LOCK
    case 10 => [0x4d, 0x4b, 0x43, 0x4f, 0x4c] // MKCOL
    case 11 => [0x4d, 0x4f, 0x56, 0x45] // MOVE
    case 12 => [0x50, 0x52, 0x4f, 0x50, 0x46, 0x49, 0x4e, 0x44] // PROPFIND
    case 13 => [0x50, 0x52, 0x4f, 0x50, 0x50, 0x41, 0x54, 0x43, 0x48] // PROPPATCH
    case 14 => [0x53, 0x45, 0x41, 0x52, 0x43, 0x48] // SEARCH
    case 15 => [0x55, 0x4e, 0x4c, 0x4f, 0x43, 0x4b] // UNLOCK
    case 16 => [0x42, 0x49, 0x4e, 0x44] // BIND
    case 17 => [0x52, 0x45, 0x42, 0x49, 0x4e, 0x44] // REBIND
    case 18 => [0x55, 0x4e, 0x42, 0x49, 0x4e, 0x44] // UNBIND
    case 19 => [0x41, 0x43, 0x4c] // ACL
    case 20 => [0x52, 0x45, 0x50, 0x4f, 0x52, 0x54] // REPORT
    case 21 => [0x4d, 0x4b, 0x41, 0x43, 0x54, 0x49, 0x56, 0x49, 0x54, 0x59] // MKACTIVITY
    case 22 => [0x43, 0x48, 0x45, 0x43, 0x4b, 0x4f, 0x55, 0x54] // CHECKOUT
    case 23 => [0x4d, 0x45, 0x52, 0x47, 0x45] // MERGE
    case 24 => [0x4d, 0x2d, 0x53, 0x45, 0x41, 0x52, 0x43, 0x48] // M-SEARCH
    case 25 => [0x4e, 0x4f, 0x54, 0x49, 0x46, 0x59] // NOTIFY
    case 26 => [0x53, 0x55, 0x42, 0x53, 0x43, 0x52, 0x49, 0x42, 0x45] // SUBSCRIBE
    case 27 => [0x55, 0x4e, 0x53, 0x55, 0x42, 0x53, 0x43, 0x52, 0x49, 0x42, 0x45] // UNSUBSCRIBE
    case 28 => [0x50, 0x41, 0x54, 0x43, 0x48] // PATCH
    case 29 => [0x50, 0x55, 0x52, 0x47, 0x45] // PURGE
    case 30 => [0x4d, 0x4b, 0x43, 0x41, 0x4c, 0x45, 0x4e, 0x44, 0x41, 0x52] // MKCALENDAR
    case 31 => [0x4c, 0x49, 0x4e, 0x4b] // LINK
    case 32 => [0x55, 0x4e, 0x4c, 0x49, 0x4e, 0x4b] // UNLINK
    case 33 => [0x53, 0x4f, 0x55, 0x52, 0x43, 0x45] // SOURCE
    case _ => []
  }

  /** What has been read of a name at a node of the trie. */
  function Spelled(n: nat): seq<byte> {
    match n
    case 0 => []
    case 1 => [0x41] // A
    case 2 => [0x42] // B
    case 3 => [0x43] // C
    case 4 => [0x43, 0x48] // CH
    case 5 => [0x43, 0x4f] // CO
    case 6 => [0x43, 0x4f, 0x4e] // CON
    case 7 => [0x43, 0x4f, 0x50] // COP
    case 8 => [0x44] // D
    case 9 => [0x47] // G
    case 10 => [0x48] // H
    case 11 => [0x4c] // L
    case 12 => [0x4c, 0x49] // LI
    case 13 => [0x4c, 0x4f] // LO
    case 14 => [0x4d] // M
    case 15 => [0x4d, 0x2d] // M-
    case 16 => [0x4d, 0x45] // ME
    case 17 => [0x4d, 0x4b] // MK
    case 18 => [0x4d, 0x4b, 0x41] // MKA
    case 19 => [0x4d, 0x4b, 0x43] // MKC
    case 20 => [0x4d, 0x4b, 0x43, 0x41] // MKCA
    case 21 => [0x4d, 0x4b, 0x43, 0x4f] // MKCO
    case 22 => [0x4d, 0x4f] // MO
    case 23 => [0x4e] // N
    case 24 => [0x4f] // O
    case 25 => [0x50] // P
    case 26 => [0x50, 0x41] // PA
    case 27 => [0x50, 0x4f] // PO
    case 28 => [0x50, 0x52] // PR
    case 29 => [0x50, 0x52, 0x4f, 0x50] // PROP
    case 30 => [0x50, 0x52, 0x4f, 0x50, 0x46] // PROPF
    case 31 => [0x50, 0x52, 0x4f, 0x50, 0x50] // PROPP
    case 32 => [0x50, 0x55] // PU
    case 33 => [0x50, 0x55, 0x52] // PUR
    case 34 => [0x52] // R
    case 35 => [0x52, 0x45] // RE
    case 36 => [0x52, 0x45, 0x42] // REB
    case 37 => [0x52, 0x45, 0x50] // REP
    case 38 => [0x53] // S
    case 39 => [0x53, 0x45] // SE
    case 40 => [0x53, 0x4f] // SO
    case 41 => [0x53, 0x55] // SU
    case 42 => [0x54] // T
    case 43 => [0x55] // U
    case 44 => [0x55, 0x4e] // UN
    case 45 => [0x55, 0x4e, 0x42] // UNB
    case 46 => [0x55, 0x4e, 0x4c] // UNL
    case 47 => [0x55, 0x4e, 0x4c, 0x49] // UNLI
    case 48 => [0x55, 0x4e, 0x4c, 0x4f] // UNLO
    case 49 => [0x55, 0x4e, 0x53] // UNS
    case _ => []
  }

  /** The node a node hangs from. */
  function AboveNode(n: nat): nat {
    match n
    case 1 | 2 | 3 | 8 | 9 | 10 | 11 | 14 | 23 | 24 | 25 | 34 | 38 | 42 | 43 => 0
    case 4 | 5 => 3
    case 6 | 7 => 5
    case 12 | 13 => 11
    case 15 | 16 | 17 | 22 => 14
    case 18 | 19 => 17
    case 20 | 21 => 19
    case 26 | 27 | 28 | 32 => 25
    case 29 => 28
    case 30 | 31 => 29
    case 33 => 32
    case 35 => 34
    case 36 | 37 => 35
    case 39 | 40 | 41 => 38
    case 44 => 43
    case 45 | 46 | 49 => 44
    case 47 | 48 => 46
    case _ => 0
  }

  /** The node a name ends at. */
  function AboveMethod(m: nat): nat {
    match m
    case 0 => 8
    case 1 => 9
    case 2 => 10
    case 3 => 27
    case 4 => 32
    case 5 => 6
    case 6 => 24
    case 7 => 42
    case 8 => 7
    case 9 => 13
    case 10 => 21
    case 11 => 22
    case 12 => 30
    case 13 => 31
    case 14 => 39
    case 15 => 48
    case 16 => 2
    case 17 => 36
    case 18 => 45
    case 19 => 1
    case 20 => 37
    case 21 => 18
    case 22 => 4
    case 23 => 16
    case 24 => 15
    case 25 => 23
    case 26 => 41
    case 27 => 49
    case 28 => 26
    case 29 => 33
    case 30 => 20
    case 31 => 12
    case 32 => 47
    case 33 => 40
    case _ => 0
  }

  function Above(t: TrieTarget): nat {
    match t
    case To(n) => AboveNode(n)
    case Accept(m) => AboveMethod(m)
  }

  function TargetSpells(t: TrieTarget): seq<byte> {
    match t
    case To(n) => Spelled(n)
    case Accept(m) => MethodName(m)
  }

  predicate TargetOk(t: TrieTarget) {
    match t
    case To(n) => n < NODES
    case Accept(m) => m < METHODS
  }

  /** Every octet that leads on from a node is the next of the names behind it. */
  predicate ArmSpells(n: nat, c: byte) {
    Arm(n, c).Some? ==> TargetOk(Arm(n, c).value) && TargetSpells(Arm(n, c).value) == Spelled(n) + [c]
  }

  predicate LiteralSpells(n: nat) {
    Trie(n).Literal? ==>
      TargetOk(Trie(n).target) && TargetSpells(Trie(n).target) == Spelled(n) + Blob(Trie(n).blob)
  }

  /** The trie leads to `t` from the node above it. */
  predicate Reached(t: TrieTarget) {
    var n := Above(t);
    && n < NODES && (t.To? ==> n < t.n) && |TargetSpells(t)| > 0
    && match Trie(n)
       case Branch => Arm(n, TargetSpells(t)[|TargetSpells(t)| - 1]) == Some(t)
       case Literal(_, u) => u == t
  }

  lemma ArmsSpell0(n: nat, c: byte)
    requires 0 <= n < 1
    ensures ArmSpells(n, c)
  {
  }

  lemma ArmsSpell1(n: nat, c: byte)
    requires 1 <= n < 12
    ensures ArmSpells(n, c)
  {
  }

  lemma ArmsSpell12(n: nat, c: byte)
    requires 12 <= n < 25
    ensures ArmSpells(n, c)
  {
  }

  lemma ArmsSpell25(n: nat, c: byte)
    requires 25 <= n < 35
    ensures ArmSpells(n, c)
  {
  }

  lemma ArmsSpell35(n: nat, c: byte)
    requires 35 <= n < 44
    ensures ArmSpells(n, c)
  {
  }

  lemma ArmsSpell44(n: nat, c: byte)
    requires 44 <= n < 50
    ensures ArmSpells(n, c)
  {
  }

  lemma ArmsSpell(n: nat, c: byte)
    requires n < 50
    ensures ArmSpells(n, c)
  {
    if n < 1 {
      ArmsSpell0(n, c);
    } else if n < 12 {
      ArmsSpell1(n, c);
    } else if n < 25 {
      ArmsSpell12(n, c);
    } else if n < 35 {
      ArmsSpell25(n, c);
    } else if n < 44 {
      ArmsSpell35(n, c);
    } else {
      ArmsSpell44(n, c);
    }
  }

  lemma LiteralSpell0(n: nat)
    requires 0 <= n < 9
    ensures LiteralSpells(n)
  {
  }

  lemma LiteralSpell9(n: nat)
    requires 9 <= n < 16
    ensures LiteralSpells(n)
  {
  }

  lemma LiteralSpell16(n: nat)
    requires 16 <= n < 24
    ensures LiteralSpells(n)
  {
  }

  lemma LiteralSpell24(n: nat)
    requires 24 <= n < 32
    ensures LiteralSpells(n)
  {
  }

  lemma LiteralSpell32(n: nat)
    requires 32 <= n < 40
    ensures LiteralSpells(n)
  {
  }

  lemma LiteralSpell40(n: nat)
    requires 40 <= n < 45
    ensures LiteralSpells(n)
  {
  }

  lemma LiteralSpell45(n: nat)
    requires 45 <= n < 50
    ensures LiteralSpells(n)
  {
  }

  lemma LiteralSpell(n: nat)
    requires n < 50
    ensures LiteralSpells(n)
  {
    if n < 9 {
      LiteralSpell0(n);
    } else if n < 16 {
      LiteralSpell9(n);
    } else if n < 24 {
      LiteralSpell16(n);
    } else if n < 32 {
      LiteralSpell24(n);
    } else if n < 40 {
      LiteralSpell32(n);
    } else if n < 45 {
      LiteralSpell40(n);
    } else {
      LiteralSpell45(n);
    }
  }

  lemma NodeReached1(n: nat)
    requires 1 <= n < 8
    ensures Reached(To(n))
  {
  }

  lemma NodeReached8(n: nat)
    requires 8 <= n < 15 && n > 0
    ensures Reached(To(n))
  {
  }

  lemma NodeReached15(n: nat)
    requires 15 <= n < 22 && n > 0
    ensures Reached(To(n))
  {
  }

  lemma NodeReached22(n: nat)
    requires 22 <= n < 29 && n > 0
    ensures Reached(To(n))
  {
  }

  lemma NodeReached29(n: nat)
    requires 29 <= n < 36 && n > 0
    ensures Reached(To(n))
  {
  }

  lemma NodeReached36(n: nat)
    requires 36 <= n < 43 && n > 0
    ensures Reached(To(n))
  {
  }

  lemma NodeReached43(n: nat)
    requires 43 <= n < 50 && n > 0
    ensures Reached(To(n))
  {
  }

  lemma NodeReached(n: nat)
    requires n < 50 && n > 0
    ensures Reached(To(n))
  {
    if n < 8 {
      NodeReached1(n);
    } else if n < 15 {
      NodeReached8(n);
    } else if n < 22 {
      NodeReached15(n);
    } else if n < 29 {
      NodeReached22(n);
    } else if n < 36 {
      NodeReached29(n);
    } else if n < 43 {
      NodeReached36(n);
    } else {
      NodeReached43(n);
    }
  }

  lemma MethodReached0(m: nat)
    requires 0 <= m < 7
    ensures Reached(Accept(m))
  {
  }

  lemma MethodReached7(m: nat)
    requires 7 <= m < 14
    ensures Reached(Accept(m))
  {
  }

  lemma MethodReached14(m: nat)
    requires 14 <= m < 21
    ensures Reached(Accept(m))
  {
  }

  lemma MethodReached21(m: nat)
    requires 21 <= m < 28
    ensures Reached(Accept(m))
  {
  }

  lemma MethodReached28(m: nat)
    requires 28 <= m < 34
    ensures Reached(Accept(m))
  {
  }

  lemma MethodReached(m: nat)
    requires m < 34
    ensures Reached(Accept(m))
  {
    if m < 7 {
      MethodReached0(m);
    } else if m < 14 {
      MethodReached7(m);
    } else if m < 21 {
      MethodReached14(m);
    } else if m < 28 {
      MethodReached21(m);
    } else {
      MethodReached28(m);
    }
  }

  lemma AllReached(t: TrieTarget)
    requires TargetOk(t) && t != To(0)
    ensures Reached(t)
  {
    match t
    case To(n) => NodeReached(n);
    case Accept(m) => MethodReached(m);
  }

  // ---------------------------------------------------------------- reading a method

  predicate AtNode(c: Config, n: nat) {
    HttpReady(c) && c.place == Begin(StartReq(n)) && n < NODES && c.fields.index == 0
  }

  lemma ArmTaken(r: Reply, c: Config, n: nat, o: byte, rest: seq<byte>)
    requires AtNode(c, n) && Trie(n).Branch? && Arm(n, o).Some?
    ensures var d := c.(place := TargetLabel(Arm(n, o).value));
      HttpReady(d) && HttpRun(r, c, [o] + rest) == HttpRun(r, d, rest)
  {
    assert c.pending.None?;
    assert ([o] + rest)[1..] == rest;
    Take(r, c, [o] + rest, c.(place := TargetLabel(Arm(n, o).value)));
  }

  lemma LiteralTaken(r: Reply, c: Config, n: nat, rest: seq<byte>)
    requires AtNode(c, n) && Trie(n).Literal?
    ensures var d := c.(place := TargetLabel(Trie(n).target));
      HttpReady(d) && HttpRun(r, c, Blob(Trie(n).blob) + rest) == HttpRun(r, d, rest)
  {
    assert c.pending.None?;
    LlhttpWellFormed();
    assert LLHTTP.node(c.place).Match? && LLHTTP.word(Trie(n).blob) == Blob(Trie(n).blob);
    MatchHit(LLHTTP, r, c, Blob(Trie(n).blob), rest);
  }

  lemma Prefixed(t: TrieTarget)
    requires TargetOk(t) && t != To(0)
    ensures var n := Above(t); var above := Spelled(n);
      && n < NODES && (t.To? ==> n < t.n)
      && |above| <= |TargetSpells(t)| && above == TargetSpells(t)[..|above|]
  {
    AllReached(t);
    var n, s := Above(t), TargetSpells(t);
    if Trie(n).Branch? {
      ArmsSpell(n, s[|s| - 1]);
    } else {
      LiteralSpell(n);
    }
  }

  /** The octets that lead from the node above `t` to `t`. */
  lemma LastStep(r: Reply, c: Config, t: TrieTarget, rest: seq<byte>)
    requires TargetOk(t) && t != To(0) && AtNode(c, Above(t))
    ensures var d := c.(place := TargetLabel(t)); var above := Spelled(Above(t));
      && HttpReady(d) && |above| <= |TargetSpells(t)| && above == TargetSpells(t)[..|above|]
      && HttpRun(r, c, TargetSpells(t)[|above|..] + rest) == HttpRun(r, d, rest)
  {
    AllReached(t);
    var n, s := Above(t), TargetSpells(t);
    match Trie(n)
    case Branch =>
      var o := s[|s| - 1];
      ArmsSpell(n, o);
      assert s[|Spelled(n)|..] == [o];
      ArmTaken(r, c, n, o, rest);
    case Literal(blob, _) =>
      LiteralSpell(n);
      assert s[|Spelled(n)|..] == Blob(blob);
      LiteralTaken(r, c, n, rest);
  }

  function Depth(t: TrieTarget): nat {
    if t.To? then t.n else NODES
  }

  lemma SplitName(s: seq<byte>, k: nat, rest: seq<byte>)
    requires k <= |s|
    ensures s + rest == s[..k] + (s[k..] + rest)
  {
  }

  /** Every name of the method table is read as its method. */
  lemma {:induction false} NameHeard(r: Reply, c: Config, t: TrieTarget, rest: seq<byte>) returns (d: Config)
    requires AtNode(c, 0) && TargetOk(t)
    ensures d == c.(place := TargetLabel(t))
    ensures HttpReady(d) && HttpRun(r, c, TargetSpells(t) + rest) == HttpRun(r, d, rest)
    decreases Depth(t)
  {
    var s := TargetSpells(t);
    if t == To(0) {
      assert s + rest == rest;
      d := c;
    } else {
      Prefixed(t);
      var n := Above(t);
      var k := |Spelled(n)|;
      var e := NameHeard(r, c, To(n), s[k..] + rest);
      LastStep(r, e, t, rest);
      SplitName(s, k, rest);
      d := e.(place := TargetLabel(t));
    }
  }

  /** How far two texts agree. */
  function Common(word: seq<byte>, s: seq<byte>): (k: nat)
    ensures k <= |word| && k <= |s| && word[..k] == s[..k] && (k == |word| ==> word <= s)
    ensures k == |word| || k == |s| || word[k] != s[k]
  {
    if |word| == 0 || |s| == 0 || word[0] != s[0] then 0
    else
      var k := Common(word[1..], s[1..]);
      assert word[..k + 1] == [word[0]] + word[1..][..k] && s[..k + 1] == [s[0]] + s[1..][..k];
      k + 1
  }

  predicate BadMethod(o: Outcome) {
    o.Stopped? && o.code == 6 && o.reason == InvalidMethodEncountered
  }

  predicate InTrie(o: Outcome) {
    o.Running? && o.c.place.Begin? && o.c.place.begin.StartReq?
  }

  lemma Refuse(r: Reply, c: Config, s: seq<byte>)
    requires HttpReady(c) && c.place == INVALID_METHOD
    ensures BadMethod(HttpRun(r, c, s)) && HttpRun(r, c, s).c.out == c.out
  {
    HttpOn(r, c, s);
  }

  lemma ArmRefused(r: Reply, c: Config, n: nat, s: seq<byte>)
    requires AtNode(c, n) && Trie(n).Branch? && |s| > 0 && Arm(n, s[0]).None?
    ensures BadMethod(HttpRun(r, c, s)) && HttpRun(r, c, s).c.out == c.out
  {
    Slide(r, c, s, c.(place := INVALID_METHOD));
    Refuse(r, c.(place := INVALID_METHOD), s);
  }

  lemma ArmWaits(r: Reply, c: Config, n: nat)
    requires AtNode(c, n) && Trie(n).Branch?
    ensures InTrie(HttpRun(r, c, []))
  {
    HttpOn(r, c, []);
  }

  lemma LiteralMisses(r: Reply, c: Config, n: nat, w: seq<byte>, rest: seq<byte>)
    requires AtNode(c, n) && Trie(n).Literal? && |rest| > 0
    requires var word := Blob(Trie(n).blob); |w| < |word| && w == word[..|w|] && rest[0] != word[|w|]
    ensures BadMethod(HttpRun(r, c, w + rest))
  {
    LlhttpWellFormed();
    var word := Blob(Trie(n).blob);
    assert c.pending.None? && LLHTTP.node(c.place).Match? && LLHTTP.word(Trie(n).blob) == word;
    assert forall j {:trigger w[j]} | 0 <= j < |w| :: w[j] == word[..|w|][j];
    MatchMiss(LLHTTP, r, c, w, rest);
    Refuse(r, c.(place := INVALID_METHOD), rest);
  }

  lemma LiteralWaits(r: Reply, c: Config, n: nat, w: seq<byte>)
    requires AtNode(c, n) && Trie(n).Literal?
    requires var word := Blob(Trie(n).blob); |w| < |word| && w == word[..|w|]
    ensures InTrie(HttpRun(r, c, w))
  {
    LlhttpWellFormed();
    var word := Blob(Trie(n).blob);
    assert LLHTTP.node(c.place).Match? && LLHTTP.word(Trie(n).blob) == word;
    assert forall j {:trigger w[j]} | 0 <= j < |w| :: w[j] == word[..|w|][j];
    MatchWaits(LLHTTP, r, c, w);
  }

  /** At a literal: the word, the end of the input, or an error. */
  lemma LiteralEnds(r: Reply, c: Config, n: nat, s: seq<byte>)
    requires AtNode(c, n) && Trie(n).Literal?
    requires !(Blob(Trie(n).blob) <= s)
    ensures InTrie(HttpRun(r, c, s)) || BadMethod(HttpRun(r, c, s))
  {
    var word := Blob(Trie(n).blob);
    var k := Common(word, s);
    if k == |s| {
      assert s[..k] == s;
      LiteralWaits(r, c, n, s);
    } else {
      assert s == s[..k] + s[k..];
      LiteralMisses(r, c, n, s[..k], s[k..]);
    }
  }

  /** The run from node `n` took the rest of the name of method `m`. */
  ghost predicate Found(r: Reply, c: Config, n: nat, s: seq<byte>, m: nat, rest: seq<byte>)
    requires AtNode(c, n)
  {
    var d := c.(place := Begin(StoreMethod1(m)));
    && m < METHODS && Spelled(n) + s == MethodName(m) + rest
    && HttpReady(d) && HttpRun(r, c, s) == HttpRun(r, d, rest)
  }

  /** One edge of the trie, and the octets it takes. */
  lemma Edge(r: Reply, c: Config, n: nat, s: seq<byte>) returns (t: Option<TrieTarget>, rest: seq<byte>)
    requires AtNode(c, n)
    ensures t.None? ==> InTrie(HttpRun(r, c, s)) || BadMethod(HttpRun(r, c, s))
    ensures t.Some? ==>
      var d := c.(place := TargetLabel(t.value));
      && TargetOk(t.value) && |rest| < |s| && Spelled(n) + s == TargetSpells(t.value) + rest
      && HttpReady(d) && HttpRun(r, c, s) == HttpRun(r, d, rest)
  {
    t := None;
    rest := [];
    match Trie(n)
    case Branch =>
      if |s| == 0 {
        ArmWaits(r, c, n);
      } else if Arm(n, s[0]).None? {
        ArmRefused(r, c, n, s);
      } else {
        t := Arm(n, s[0]);
        rest := s[1..];
        ArmsSpell(n, s[0]);
        assert s == [s[0]] + rest;
        Regroup(Spelled(n), [s[0]], rest);
        ArmTaken(r, c, n, s[0], rest);
      }
    case Literal(blob, target) =>
      if Blob(blob) <= s {
        t := Some(target);
        rest := s[|Blob(blob)|..];
        LiteralSpell(n);
        assert s == Blob(blob) + rest;
        Regroup(Spelled(n), Blob(blob), rest);
        LiteralTaken(r, c, n, rest);
      } else {
        LiteralEnds(r, c, n, s);
      }
  }

  /** What the trie accepts is a name, what is not the beginning of one is an error, and of the rest more is wanted. */
  lemma {:induction false} OnlyNames(r: Reply, c: Config, n: nat, s: seq<byte>) returns (m: Option<nat>, rest: seq<byte>)
    requires AtNode(c, n)
    ensures m.Some? ==> Found(r, c, n, s, m.value, rest)
    ensures m.None? ==> InTrie(HttpRun(r, c, s)) || BadMethod(HttpRun(r, c, s))
    decreases |s|
  {
    var t, left := Edge(r, c, n, s);
    m := None;
    rest := [];
    if t.Some? {
      match t.value
      case Accept(k) =>
        m := Some(k);
        rest := left;
      case To(next) =>
        m, rest := OnlyNames(r, c.(place := Begin(StartReq(next))), next, left);
    }
  }

  /** The request method: octets that begin with a name of the method table store its number, and nothing else does. */
  lemma MethodRead(r: Reply, c: Config, s: seq<byte>)
    requires AtNode(c, 0)
    ensures forall m: nat, rest {:trigger Found(r, c, 0, s, m, rest)} |
      m < METHODS && s == MethodName(m) + rest :: Found(r, c, 0, s, m, rest)
    ensures (forall m: nat, rest {:trigger Found(r, c, 0, s, m, rest)} :: !Found(r, c, 0, s, m, rest)) ==>
      InTrie(HttpRun(r, c, s)) || BadMethod(HttpRun(r, c, s))
  {
    forall m: nat, rest | m < METHODS && s == MethodName(m) + rest ensures Found(r, c, 0, s, m, rest) {
      var d := NameHeard(r, c, Accept(m), rest);
      assert Spelled(0) + s == s;
    }
    var m, rest := OnlyNames(r, c, 0, s);
  }
}
