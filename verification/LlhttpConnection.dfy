/** Connection headers: a list of words, read octet by octet. */
module LlhttpConnection {
  import opened Bytes
  import opened LlhttpTypes
  import opened LlhttpTables
  import opened Llparse
  import opened LlparseBulk
  import opened LlhttpProgram
  import opened LlhttpNumbers
  import opened LlhttpChunks
  import opened LlhttpNames
  import opened LlhttpValues

  // ---------------------------------------------------------------- what a list says

  const COMMA: byte := 0x2c

  // close, keep-alive
  const CLOSE: seq<byte> := [0x63, 0x6c, 0x6f, 0x73, 0x65]
  const KEEP_ALIVE: seq<byte> := [0x6b, 0x65, 0x65, 0x70, 0x2d, 0x61, 0x6c, 0x69, 0x76, 0x65]

  /** An octet before an element that does not count: setting one bit makes a space of a NUL. */
  predicate Skipped(c: byte) {
    c == SP || c == 0
  }

  /** The header state behind an element that finds it at `s`: that of its word; zero if a word is followed by anything but
      spaces; and otherwise what it was. */
  function ElementState(s: nat, e: seq<byte>): nat {
    if |e| > 0 && Skipped(e[0]) then ElementState(s, e[1..])
    else if IsWord(e, CLOSE) then 6
    else if IsWord(e, KEEP_ALIVE) then 5
    else if IsWord(e, UPGRADE) then 7
    else if BeginsWith(e, CLOSE) || BeginsWith(e, KEEP_ALIVE) || BeginsWith(e, UPGRADE) then 0
    else s
  }

  /** Where the first element ends. */
  function CommaAt(s: seq<byte>): (k: nat)
    ensures k <= |s| && (k < |s| ==> s[k] == COMMA) && forall i | 0 <= i < k :: s[i] != COMMA
  {
    if |s| == 0 || s[0] == COMMA then 0 else 1 + CommaAt(s[1..])
  }

  /** A comma follows the first element. */
  predicate HasComma(s: seq<byte>) {
    CommaAt(s) < |s|
  }

  /** What follows the first comma. */
  function Behind(s: seq<byte>): (u: seq<byte>)
    ensures HasComma(s) ==> |u| < |s|
  {
    if HasComma(s) then s[CommaAt(s) + 1..] else []
  }

  /** The fields behind a list with commas between its elements; the flag of the last is not yet set. */
  function ListFields(f: Fields, s: seq<byte>): Fields
    decreases |s|
  {
    var g := f.(headerState := ElementState(f.headerState, s[..CommaAt(s)]));
    if HasComma(s) then ListFields(SettleHeaderState(g), Behind(s)) else g
  }

  /** The fields behind all elements but the first, when that has been read. */
  function AfterFields(f: Fields, s: seq<byte>): Fields {
    if HasComma(s) then ListFields(f, Behind(s)) else f
  }

  lemma CommaLater(s: seq<byte>, k: nat)
    requires k <= CommaAt(s)
    ensures CommaAt(s[k..]) == CommaAt(s) - k
  {
    var t, n := s[k..], CommaAt(s) - k;
    assert forall i {:trigger t[i]} | 0 <= i < |t| :: t[i] == s[k + i];
    assert n < |t| ==> t[n] == COMMA;
    assert forall i | 0 <= i < n :: t[i] != COMMA;
  }

  lemma DropTwice(s: seq<byte>, k: nat, n: nat)
    requires k + n <= |s|
    ensures s[k..][n..] == s[k + n..]
  {
  }

  /** Part of the first element taken off. */
  lemma BehindTail(s: seq<byte>, k: nat)
    requires k <= CommaAt(s)
    ensures CommaAt(s[k..]) == CommaAt(s) - k && Behind(s[k..]) == Behind(s) && (HasComma(s[k..]) <==> HasComma(s))
  {
    CommaLater(s, k);
    if HasComma(s) {
      DropTwice(s, k, CommaAt(s) - k + 1);
    }
  }

  lemma CommaTail(s: seq<byte>, k: nat)
    requires k <= CommaAt(s)
    ensures CommaAt(s[k..]) == CommaAt(s) - k
    ensures forall f :: AfterFields(f, s[k..]) == AfterFields(f, s)
    ensures s[..CommaAt(s)][k..] == s[k..][..CommaAt(s[k..])]
  {
    BehindTail(s, k);
  }

  const LOSE: seq<byte> := [0x6c, 0x6f, 0x73, 0x65]
  const EEP_ALIVE: seq<byte> := [0x65, 0x65, 0x70, 0x2d, 0x61, 0x6c, 0x69, 0x76, 0x65]

  lemma OctetBegins(s: seq<byte>, x: byte, y: seq<byte>)
    ensures BeginsWith(s, [x] + y) <==> |s| > 0 && AsWord(s[0]) == x && BeginsWith(s[1..], y)
  {
    var w := [x] + y;
    if |w| <= |s| {
      var t := s[1..];
      assert forall j {:trigger t[j]} | 0 <= j < |t| :: t[j] == s[j + 1];
      assert forall j {:trigger y[j]} | 0 <= j < |y| :: w[j + 1] == y[j];
    }
  }

  /** The header state behind an element, by the word that its first octet announces. */
  function StateBehind(s: nat, t: seq<byte>, word: seq<byte>, n: nat): nat {
    if !BeginsWith(t, word) then s else if IsWord(t, word) then n else 0
  }

  lemma ElementByOctet(s: nat, e: seq<byte>)
    requires |e| > 0 && !Skipped(e[0])
    ensures var y := AsWord(e[0]);
      ElementState(s, e) ==
        if y == 0x63 then StateBehind(s, e[1..], LOSE, 6)
        else if y == 0x6b then StateBehind(s, e[1..], EEP_ALIVE, 5)
        else if y == 0x75 then StateBehind(s, e[1..], PGRADE, 7)
        else s
  {
    assert CLOSE == [0x63] + LOSE && KEEP_ALIVE == [0x6b] + EEP_ALIVE && UPGRADE == [0x75] + PGRADE;
    OctetWord(e, 0x63, LOSE);
    OctetWord(e, 0x6b, EEP_ALIVE);
    OctetWord(e, 0x75, PGRADE);
    OctetBegins(e, 0x63, LOSE);
    OctetBegins(e, 0x6b, EEP_ALIVE);
    OctetBegins(e, 0x75, PGRADE);
  }

  lemma NoComma(s: seq<byte>, word: seq<byte>)
    requires IsWordText(word) && BeginsWith(s, word)
    ensures |word| <= CommaAt(s)
  {
    forall j | 0 <= j < |word| ensures s[j] != COMMA {
      assert AsWord(s[j]) == word[j];
    }
  }

  /** A word lies before the comma if anywhere. */
  lemma WordInElement(s: seq<byte>, word: seq<byte>)
    requires IsWordText(word)
    ensures var e := s[..CommaAt(s)];
      if BeginsWith(s, word) then |word| <= |e| && (IsWord(e, word) <==> Spaces(s[|word|..][..CommaAt(s) - |word|]))
      else !IsWord(e, word) && Agree(s, word) <= |e|
  {
    hide AsWord, CommaAt, IsWordOctet;
    var k := CommaAt(s);
    var e := s[..k];
    assert forall j {:trigger e[j]} | 0 <= j < |e| :: e[j] == s[j];
    if BeginsWith(s, word) {
      NoComma(s, word);
      assert e[|word|..] == s[|word|..][..k - |word|];
    } else {
      NoComma(s, word[..Agree(s, word)]);
    }
  }

  // ---------------------------------------------------------------- the octets of a list

  const KEEP: seq<byte> := [0x6b, 0x65, 0x65, 0x70]
  const EEP: seq<byte> := [0x65, 0x65, 0x70]

  /** An octet of a value, or a CR in place of the hyphen of keep-alive. */
  predicate IsElementOctet(e: seq<byte>, i: nat)
    requires i < |e|
  {
    IsValueOctet(e[i]) || (e[i] == CR && i == 4 && BeginsWith(e, KEEP))
  }

  /** An element of a list; NULs before it do not count. */
  predicate IsElement(e: seq<byte>) {
    if |e| > 0 && Skipped(e[0]) then IsElement(e[1..]) else forall i: nat | i < |e| :: IsElementOctet(e, i)
  }

  /** The values of a Connection header. */
  predicate IsList(s: seq<byte>)
    decreases |s|
  {
    IsElement(s[..CommaAt(s)]) && (HasComma(s) ==> IsList(Behind(s)))
  }

  /** The rest of an element in which no CR can be a hyphen any more, and what follows it. */
  predicate IsRest(s: seq<byte>) {
    IsValue(s[..CommaAt(s)]) && (HasComma(s) ==> IsList(Behind(s)))
  }

  /** An octet of an element behind its first letter `x`. */
  predicate IsTailOctet(x: byte, t: seq<byte>, i: nat)
    requires i < |t|
  {
    IsValueOctet(t[i]) || (x == 0x6b && t[i] == CR && i == 3 && BeginsWith(t, EEP))
  }

  /** An element behind its first letter `x`, and what follows it. */
  predicate IsTail(x: byte, t: seq<byte>) {
    && (forall i: nat | i < CommaAt(t) :: IsTailOctet(x, t, i))
    && (HasComma(t) ==> IsList(Behind(t)))
  }

  lemma {:induction false} ValueIsElement(e: seq<byte>)
    requires IsValue(e)
    ensures IsElement(e)
    decreases |e|
  {
    if |e| > 0 {
      ValueTail(e, 1);
      ValueIsElement(e[1..]);
    }
  }

  /** Any value will do. */
  lemma {:induction false} ValueIsList(s: seq<byte>)
    requires IsValue(s)
    ensures IsList(s)
    decreases |s|
  {
    var e := s[..CommaAt(s)];
    assert IsValue(e);
    ValueIsElement(e);
    if HasComma(s) {
      ValueTail(s, CommaAt(s) + 1);
      ValueIsList(Behind(s));
    }
  }

  lemma ListSkip(left: seq<byte>)
    requires |left| > 0 && Skipped(left[0])
    ensures IsList(left) <==> IsList(left[1..])
    ensures forall f :: ListFields(f, left) == ListFields(f, left[1..])
  {
    var e := left[..CommaAt(left)];
    assert CommaAt(left) > 0 && e[0] == left[0];
    CommaTail(left, 1);
    BehindTail(left, 1);
  }

  lemma ElementOctetAt(left: seq<byte>, i: nat)
    requires i < CommaAt(left)
    ensures IsElementOctet(left[..CommaAt(left)], i) <==> IsElementOctet(left, i)
  {
    var e := left[..CommaAt(left)];
    assert forall j {:trigger e[j]} {:trigger left[j]} | 0 <= j < |e| :: e[j] == left[j];
    if i == 4 {
      assert BeginsWith(e, KEEP) <==> BeginsWith(left, KEEP);
    }
  }

  /** The first element octet by octet. */
  lemma FirstOctets(left: seq<byte>)
    requires |left| > 0 ==> !Skipped(left[0])
    ensures IsElement(left[..CommaAt(left)]) <==> forall i: nat | i < CommaAt(left) :: IsElementOctet(left, i)
  {
    var e := left[..CommaAt(left)];
    assert |e| > 0 ==> e[0] == left[0];
    forall i: nat | i < CommaAt(left) ensures IsElementOctet(e, i) <==> IsElementOctet(left, i) {
      ElementOctetAt(left, i);
    }
  }

  lemma WordLetter(x: byte)
    requires AsWord(x) == 0x63 || AsWord(x) == 0x6b || AsWord(x) == 0x75
    ensures IsValueOctet(x) && x != COMMA && !Skipped(x)
  {
  }

  lemma KeepBegins(left: seq<byte>)
    requires |left| > 0
    ensures BeginsWith(left, KEEP) <==> AsWord(left[0]) == 0x6b && BeginsWith(left[1..], EEP)
  {
    assert KEEP == [0x6b] + EEP;
    OctetBegins(left, 0x6b, EEP);
  }

  lemma TailOctet(left: seq<byte>, x: byte, i: nat)
    requires i + 1 < |left| && x == AsWord(left[0])
    ensures IsElementOctet(left, i + 1) <==> IsTailOctet(x, left[1..], i)
  {
    KeepBegins(left);
  }

  /** Behind the first letter. */
  lemma ListTail(left: seq<byte>, x: byte)
    requires |left| > 0 && x == AsWord(left[0]) && (x == 0x63 || x == 0x6b || x == 0x75)
    ensures IsList(left) <==> IsTail(x, left[1..])
  {
    WordLetter(left[0]);
    FirstOctets(left);
    BehindTail(left, 1);
    forall i: nat | i + 1 < |left| ensures IsElementOctet(left, i + 1) <==> IsTailOctet(x, left[1..], i) {
      TailOctet(left, x, i);
    }
    assert IsElementOctet(left, 0);
    FromSecond(left, x);
  }

  lemma FromSecond(left: seq<byte>, x: byte)
    requires |left| > 0 && IsElementOctet(left, 0) && left[0] != COMMA
    requires CommaAt(left[1..]) == CommaAt(left) - 1
    requires forall i: nat | i + 1 < |left| :: IsElementOctet(left, i + 1) <==> IsTailOctet(x, left[1..], i)
    ensures (forall i: nat | i < CommaAt(left) :: IsElementOctet(left, i))
            <==> forall i: nat | i < CommaAt(left[1..]) :: IsTailOctet(x, left[1..], i)
  {
    var t := left[1..];
    if forall i: nat | i < CommaAt(t) :: IsTailOctet(x, t, i) {
      forall i: nat | i < CommaAt(left) ensures IsElementOctet(left, i) {
        if i > 0 {
          assert IsTailOctet(x, t, i - 1);
        }
      }
    }
    if forall i: nat | i < CommaAt(left) :: IsElementOctet(left, i) {
      forall i: nat | i < CommaAt(t) ensures IsTailOctet(x, t, i) {
        assert IsElementOctet(left, i + 1);
      }
    }
  }

  /** An element that does not begin with a k has no CR. */
  lemma ListRest(left: seq<byte>)
    requires |left| > 0 ==> !Skipped(left[0]) && AsWord(left[0]) != 0x6b
    ensures IsList(left) <==> IsRest(left)
  {
    FirstOctets(left);
    if |left| > 0 {
      KeepBegins(left);
    }
    var e := left[..CommaAt(left)];
    forall i: nat | i < |e| ensures e[i] == left[i] && (IsElementOctet(left, i) <==> IsValueOctet(e[i])) {
    }
    if forall i: nat | i < CommaAt(left) :: IsElementOctet(left, i) {
      forall i {:trigger e[i]} | 0 <= i < |e| ensures IsValueOctet(e[i]) {
        assert IsElementOctet(left, i);
      }
    }
  }

  lemma RestTail(left: seq<byte>)
    requires |left| > 0
    ensures IsRest(left) <==> if left[0] == COMMA then IsList(left[1..]) else IsValueOctet(left[0]) && IsRest(left[1..])
  {
    if left[0] == COMMA {
      assert CommaAt(left) == 0 && Behind(left) == left[1..];
    } else {
      var e := left[..CommaAt(left)];
      assert CommaAt(left) > 0 && e[0] == left[0];
      CommaTail(left, 1);
      BehindTail(left, 1);
      ValueHead(e);
    }
  }

  lemma EepAgreesOn(t: seq<byte>)
    requires |t| > 3 && t[3] == CR && BeginsWith(t, EEP)
    ensures Agree(t, EEP_ALIVE) > 3
  {
    var k := Agree(t, EEP_ALIVE);
    assert forall j | 0 <= j < 3 :: AsWord(t[j]) == EEP[j] == EEP_ALIVE[j];
    assert AsWord(t[3]) == EEP_ALIVE[3];
  }

  lemma HitAgrees(t: seq<byte>, word: seq<byte>)
    requires BeginsWith(t, word)
    ensures Agree(t, word) == |word|
  {
  }

  /** The octets of a word are those of a value, but for the CR. */
  lemma AgreedOctets(x: byte, at: ConnLabel, word: seq<byte>, n: nat, t: seq<byte>, i: nat)
    requires ListWord(x, at, word, n) && i < Agree(t, word)
    ensures IsTailOctet(x, t, i) && t[i] != COMMA
  {
    ListWordAt(x, at, word, n);
    var w := word[..Agree(t, word)];
    assert AsWord(t[i]) == w[i] == word[i];
    WordOctetIs(t[i], word[i]);
    if t[i] == CR {
      AgreedEep(word, t, i);
    }
  }

  lemma WordOctetIs(c: byte, x: byte)
    requires IsWordOctet(x) && AsWord(c) == x
    ensures c != COMMA && (if c == CR then x == HYPHEN else IsValueOctet(c))
  {
  }

  lemma AgreedEep(word: seq<byte>, t: seq<byte>, i: nat)
    requires (word == LOSE || word == EEP_ALIVE || word == PGRADE) && i < Agree(t, word) && word[i] == HYPHEN
    ensures word == EEP_ALIVE && i == 3 && BeginsWith(t, EEP)
  {
    var w := word[..Agree(t, word)];
    assert forall j | 0 <= j < 3 :: AsWord(t[j]) == w[j] == word[j];
  }

  lemma AgreedBefore(x: byte, at: ConnLabel, word: seq<byte>, n: nat, t: seq<byte>)
    requires ListWord(x, at, word, n)
    ensures Agree(t, word) <= CommaAt(t)
  {
    if CommaAt(t) < Agree(t, word) {
      AgreedOctets(x, at, word, n, t, CommaAt(t));
    }
  }

  /** Behind the part that the word has taken no CR is left. */
  lemma TailRest(x: byte, at: ConnLabel, word: seq<byte>, n: nat, t: seq<byte>, k: nat)
    requires ListWord(x, at, word, n) && k == Agree(t, word)
    ensures k <= CommaAt(t) && (IsTail(x, t) <==> IsRest(t[k..]))
  {
    hide IsTailOctet, IsValueOctet, CommaAt, HasComma, Behind, IsList, IsValue, Agree, ListWord;
    AgreedBefore(x, at, word, n, t);
    BehindTail(t, k);
    forall i: nat | i < k ensures IsTailOctet(x, t, i) {
      AgreedOctets(x, at, word, n, t, i);
    }
    forall i: nat | k <= i < |t| ensures IsTailOctet(x, t, i) <==> IsValueOctet(t[i]) {
      LateOctet(x, at, word, n, t, i);
    }
    FromLate(x, t, k);
  }

  lemma FromLate(x: byte, t: seq<byte>, k: nat)
    requires k <= CommaAt(t) && CommaAt(t[k..]) == CommaAt(t) - k
    requires forall i: nat | i < k :: IsTailOctet(x, t, i)
    requires forall i: nat | k <= i < |t| :: IsTailOctet(x, t, i) <==> IsValueOctet(t[i])
    ensures (forall i: nat | i < CommaAt(t) :: IsTailOctet(x, t, i)) <==> IsValue(t[k..][..CommaAt(t) - k])
  {
    hide IsTailOctet, IsValueOctet, CommaAt;
    var e := t[k..][..CommaAt(t) - k];
    assert forall j: nat {:trigger e[j]} | j < |e| :: e[j] == t[k + j];
    if IsValue(e) {
      forall i: nat | i < CommaAt(t) ensures IsTailOctet(x, t, i) {
        assert i >= k ==> e[i - k] == t[i];
      }
    }
    if forall i: nat | i < CommaAt(t) :: IsTailOctet(x, t, i) {
      forall j: nat {:trigger e[j]} | j < |e| ensures IsValueOctet(e[j]) {
        assert IsTailOctet(x, t, k + j);
      }
    }
  }

  lemma LateOctet(x: byte, at: ConnLabel, word: seq<byte>, n: nat, t: seq<byte>, i: nat)
    requires ListWord(x, at, word, n) && Agree(t, word) <= i < |t|
    ensures IsTailOctet(x, t, i) <==> IsValueOctet(t[i])
  {
    if IsTailOctet(x, t, i) && !IsValueOctet(t[i]) {
      EepAgreesOn(t);
    }
  }

  // ---------------------------------------------------------------- reading the list

  /** The three blocks that match a word of the list, each with its state. */
  predicate ListWord(x: byte, at: ConnLabel, word: seq<byte>, n: nat) {
    || (x == 0x63 && at == HeaderValueConnection1 && word == LOSE && n == 6)
    || (x == 0x6b && at == HeaderValueConnection2 && word == EEP_ALIVE && n == 5)
    || (x == 0x75 && at == HeaderValueConnection3 && word == PGRADE && n == 7)
  }

  lemma ListWordAt(x: byte, at: ConnLabel, word: seq<byte>, n: nat)
    requires ListWord(x, at, word, n)
    ensures IsWordText(word) && FlagOf(n).Some? && |word| >= 4
    ensures var m := ConnNode(at);
      && m.Match? && m.lower && Blob(m.blob) == word
      && m.hit == Conn(UpdateConnectionState(n)) && m.miss == Conn(HeaderValueConnectionToken)
  {
  }

  lemma ListWordOctet(c: byte, x: byte, at: ConnLabel, word: seq<byte>, n: nat)
    requires ListWord(x, at, word, n)
    ensures AsWord(c) == x <==> ConnDispatch(HeaderValueConnection, c) == Advance(Conn(at))
    ensures AsWord(c) == x ==> c != SP && c != COMMA
  {
  }

  /** A matched word: where the parser goes from the block that matched it. */
  lemma WordMatched(r: Reply, c: Config, x: byte, at: ConnLabel, word: seq<byte>, n: nat, w: seq<byte>, tail: seq<byte>)
    requires InValue(c, Conn(at)) && ListWord(x, at, word, n) && |w| == |word| && BeginsWith(w, word)
    ensures var d := c.(place := Conn(UpdateConnectionState(n)), pending := Extend(c.pending, w));
      InValue(d, Conn(UpdateConnectionState(n))) && HttpRun(r, c, w + tail) == HttpRun(r, d, tail)
  {
    LlhttpWellFormed();
    ListWordAt(x, at, word, n);
    forall j {:trigger w[j]} | 0 <= j < |w| ensures Fold(w[j], true) == word[j] {
      FoldIsAsWord(w[j], word[j]);
    }
    assert LLHTTP.node(c.place) == ConnNode(at) && LLHTTP.word(ConnNode(at).blob) == word;
    MatchHit(LLHTTP, r, c, w, tail);
  }

  lemma WordUnmatched(r: Reply, c: Config, x: byte, at: ConnLabel, word: seq<byte>, n: nat, w: seq<byte>, tail: seq<byte>)
    requires InValue(c, Conn(at)) && ListWord(x, at, word, n) && |tail| > 0
    requires MatchesFrom(word, true, 0, w) && Fold(tail[0], true) != word[|w|]
    ensures var d := c.(place := Conn(HeaderValueConnectionToken), pending := Extend(c.pending, w));
      InValue(d, Conn(HeaderValueConnectionToken)) && HttpRun(r, c, w + tail) == HttpRun(r, d, tail)
  {
    LlhttpWellFormed();
    ListWordAt(x, at, word, n);
    assert LLHTTP.node(c.place) == ConnNode(at) && LLHTTP.word(ConnNode(at).blob) == word;
    MatchMiss(LLHTTP, r, c, w, tail);
  }

  /** The end of an unknown element, or of the list; or an octet that is none of a value. */
  lemma TokenEnds(r: Reply, c: Config, left: seq<byte>, rest: seq<byte>)
    requires InValue(c, Conn(HeaderValueConnectionToken)) && NoLf(left)
    requires left == [] || (left[0] != COMMA && !IsValueOctet(left[0]))
    ensures PartEnds(r, c, left, rest, If(left == [], c.fields), [])
  {
    hide HttpRun, HttpReady;
    var off := Value(HeaderValueOtherwise);
    LineOctet(left);
    if InValue(c.(place := off), off) {
      Otherwise(r, c.(place := off), left, rest);
    }
    PartAside(r, c, Conn(HeaderValueConnectionToken), off, left, rest, If(left == [], c.fields), []);
  }

  /** The end of the list behind a matched word; or a CR. */
  lemma MarkEnds(r: Reply, c: Config, left: seq<byte>, rest: seq<byte>)
    requires InValue(c, Conn(HeaderValueConnectionWs)) && NoLf(left) && (left == [] || left[0] == CR)
    ensures PartEnds(r, c, left, rest, If(left == [], c.fields), [])
  {
    hide HttpRun, HttpReady;
    var off := Value(HeaderValueOtherwise);
    LineOctet(left);
    if InValue(c.(place := off), off) {
      Otherwise(r, c.(place := off), left, rest);
    }
    PartAside(r, c, Conn(HeaderValueConnectionWs), off, left, rest, If(left == [], c.fields), []);
  }

  // ---------------------------------------------------------------- an unfinished keep-alive

  /** The element is "keep", perhaps behind what does not count. */
  predicate IsKeep(e: seq<byte>) {
    if |e| > 0 && Skipped(e[0]) then IsKeep(e[1..]) else |e| == 4 && BeginsWith(e, KEEP)
  }

  /** What is reported on top of a Connection value: setting one bit makes a hyphen of a CR, so an element that stops
      right before the hyphen of keep-alive takes the CR that ends the line into the value. */
  function ExtraOctets(s: seq<byte>): seq<byte>
    decreases |s|
  {
    if HasComma(s) then ExtraOctets(Behind(s)) else if IsKeep(s) then [CR] else []
  }

  function ExtraAfter(s: seq<byte>): seq<byte> {
    if HasComma(s) then ExtraOctets(Behind(s)) else []
  }

  lemma ExtraTail(s: seq<byte>, k: nat)
    requires k <= CommaAt(s)
    ensures ExtraAfter(s[k..]) == ExtraAfter(s)
  {
    BehindTail(s, k);
  }

  lemma KeepTaken(r: Reply, c: Config, w: seq<byte>, rest: seq<byte>)
    requires InValue(c, Conn(HeaderValueConnection2)) && |w| == 3 && BeginsWith(w, EEP)
    ensures var d := c.(place := Conn(HeaderValueConnectionToken), pending := Extend(c.pending, w + [CR]));
      InValue(d, Conn(HeaderValueConnectionToken)) && HttpRun(r, c, w + [CR] + ([LF] + rest)) == HttpRun(r, d, [LF] + rest)
  {
    var u := w + [CR];
    forall j {:trigger u[j]} | 0 <= j < |u| ensures Fold(u[j], true) == EEP_ALIVE[0 + j] {
      if j < 3 {
        assert AsWord(w[j]) == EEP[j] == EEP_ALIVE[j];
        FoldIsAsWord(w[j], EEP[j]);
      } else {
        assert u[j] == CR && EEP_ALIVE[3] == 0x2d;
      }
    }
    WordUnmatched(r, c, 0x6b, HeaderValueConnection2, EEP_ALIVE, 5, u, [LF] + rest);
  }

  lemma KeepClosed(r: Reply, c: Config, rest: seq<byte>)
    requires InValue(c, Conn(HeaderValueConnectionToken))
    ensures var d := Close(c, ValueSpan, Value(HeaderValueAlmostDone));
      HttpReady(d) && HttpRun(r, c, [LF] + rest) == HttpRun(r, d, [LF] + rest)
  {
    var input := [LF] + rest;
    Slide(r, c, input, c.(place := Value(HeaderValueOtherwise)));
    KeepClosing(r, c.(place := Value(HeaderValueOtherwise)), input);
  }

  lemma KeepClosing(r: Reply, c: Config, input: seq<byte>)
    requires InValue(c, Value(HeaderValueOtherwise)) && |input| > 0 && input[0] == LF
    ensures var d := Close(c, ValueSpan, Value(HeaderValueAlmostDone));
      HttpReady(d) && HttpRun(r, c, input) == HttpRun(r, d, input)
  {
    var s := c.(place := Value(SpanEndHeaderValue1));
    Slide(r, c, input, s);
    Slide(r, s, input, Close(c, ValueSpan, Value(HeaderValueAlmostDone)));
  }

  /** "keep" at the end of the line: no flag, and a value one octet too long. */
  lemma KeepLine(r: Reply, c: Config, left: seq<byte>, rest: seq<byte>)
    requires InValue(c, Conn(HeaderValueConnection2)) && |left| == 3 && BeginsWith(left, EEP)
    ensures PartEnds(r, c, left, rest, Some(c.fields), [CR])
  {
    hide HttpRun, HttpReady;
    KeepTaken(r, c, left, rest);
    assert left + (CRLF + rest) == left + [CR] + ([LF] + rest);
    var d := c.(place := Conn(HeaderValueConnectionToken), pending := Extend(c.pending, left + [CR]));
    KeepClosed(r, d, rest);
    LineFeed(r, Close(d, ValueSpan, Value(HeaderValueAlmostDone)), rest);
  }

  // ---------------------------------------------------------------- the list, element by element

  /** The fields behind an element whose word has been matched, and what follows it. */
  function MarkFields(f: Fields, n: nat, u: seq<byte>): Fields {
    var g := f.(headerState := if Spaces(u[..CommaAt(u)]) then n else 0);
    if HasComma(u) then ListFields(SettleHeaderState(g), Behind(u)) else g
  }

  lemma Unsettled(f: Fields)
    requires f.headerState <= 1
    ensures SettleHeaderState(f) == f
  {
  }

  /** The first element, its first octet taken off. */
  lemma ElementOctet(f: Fields, left: seq<byte>, x: byte, at: ConnLabel, word: seq<byte>, n: nat)
    requires |left| > 0 && ListWord(x, at, word, n) && AsWord(left[0]) == x
    ensures var t := left[1..];
      && CommaAt(t) == CommaAt(left) - 1 && ExtraAfter(t) == ExtraAfter(left)
      && ElementState(f.headerState, left[..CommaAt(left)]) == StateBehind(f.headerState, t[..CommaAt(t)], word, n)
      && (HasComma(t) <==> HasComma(left)) && Behind(t) == Behind(left)
  {
    WordLetter(left[0]);
    var e := left[..CommaAt(left)];
    assert CommaAt(left) > 0 && e[0] == left[0];
    CommaTail(left, 1);
    BehindTail(left, 1);
    ElementByOctet(f.headerState, e);
    ExtraTail(left, 1);
  }

  /** A matched word: its element is the word if nothing but spaces follows. */
  lemma ElementMark(s: nat, t: seq<byte>, word: seq<byte>, n: nat)
    requires IsWordText(word) && BeginsWith(t, word)
    ensures |word| <= CommaAt(t)
    ensures var u := t[|word|..];
      StateBehind(s, t[..CommaAt(t)], word, n) == if Spaces(u[..CommaAt(u)]) then n else 0
  {
    WordInElement(t, word);
    CommaTail(t, |word|);
  }

  /** An element that goes on with the word its first octet announces. */
  lemma ElementHit(f: Fields, left: seq<byte>, x: byte, at: ConnLabel, word: seq<byte>, n: nat)
    requires |left| > 0 && ListWord(x, at, word, n) && AsWord(left[0]) == x && BeginsWith(left[1..], word)
    ensures var u := left[1..][|word|..];
      ListFields(f, left) == MarkFields(f, n, u) && ExtraOctets(left) == ExtraAfter(u)
  {
    ListWordAt(x, at, word, n);
    var t := left[1..];
    ElementOctet(f, left, x, at, word, n);
    ElementMark(f.headerState, t, word, n);
    BehindTail(t, |word|);
    LongElement(left, x, at, word, n);
  }

  /** The words of the list are longer than "keep". */
  lemma LongElement(left: seq<byte>, x: byte, at: ConnLabel, word: seq<byte>, n: nat)
    requires |left| > |word| && ListWord(x, at, word, n) && AsWord(left[0]) == x
    ensures ExtraOctets(left) == ExtraAfter(left)
  {
    ListWordAt(x, at, word, n);
    WordLetter(left[0]);
  }

  /** One that does not. */
  lemma ElementMiss(f: Fields, left: seq<byte>, x: byte, at: ConnLabel, word: seq<byte>, n: nat)
    requires |left| > 0 && ListWord(x, at, word, n) && AsWord(left[0]) == x && !BeginsWith(left[1..], word)
    requires f.headerState <= 1
    ensures var t := left[1..]; var k := Agree(t, word);
      && k <= CommaAt(t) && ListFields(f, left) == AfterFields(f, t[k..])
      && ExtraOctets(left) == if CommaAt(left) == |left| && IsKeep(left) then [CR] else ExtraAfter(t[k..])
  {
    ListWordAt(x, at, word, n);
    var t := left[1..];
    ElementOctet(f, left, x, at, word, n);
    WordInElement(t, word);
    NotBegun(t, word);
    BehindTail(t, Agree(t, word));
    Unsettled(f);
  }

  lemma NotBegun(t: seq<byte>, word: seq<byte>)
    requires !BeginsWith(t, word)
    ensures !BeginsWith(t[..CommaAt(t)], word)
  {
    var e := t[..CommaAt(t)];
    assert forall j {:trigger e[j]} | 0 <= j < |e| :: e[j] == t[j];
  }

  lemma NotKeep(left: seq<byte>)
    requires |left| > 0 ==> !Skipped(left[0]) && AsWord(left[0]) != 0x6b
    ensures !IsKeep(left)
  {
    assert KEEP[0] == 0x6b;
  }

  /** An octet that no element with a meaning begins with. */
  predicate IsOther(x: byte) {
    !Skipped(x) && AsWord(x) != 0x63 && AsWord(x) != 0x6b && AsWord(x) != 0x75
  }

  /** An element that begins with none of the three letters. */
  lemma ElementOther(f: Fields, left: seq<byte>)
    requires (|left| > 0 ==> IsOther(left[0])) && f.headerState <= 1
    ensures ListFields(f, left) == AfterFields(f, left) && ExtraOctets(left) == ExtraAfter(left)
  {
    var e := left[..CommaAt(left)];
    if |e| > 0 {
      assert e[0] == left[0];
      ElementByOctet(f.headerState, e);
    } else {
      assert e == [];
    }
    Unsettled(f);
    NotKeep(left);
  }

  // ---------------------------------------------------------------- the list, read

  /** The rest of an element that is nothing, and what follows it. */
  lemma {:induction false} Token(r: Reply, c: Config, left: seq<byte>, rest: seq<byte>)
    requires InValue(c, Conn(HeaderValueConnectionToken)) && c.fields.headerState <= 1 && NoLf(left)
    ensures PartEnds(r, c, left, rest, If(IsRest(left), AfterFields(c.fields, left)), ExtraAfter(left))
    decreases |left|, 1
  {
    hide HttpRun, HttpReady, PartEnds, IsRest, AfterFields, ExtraAfter;
    var here := Conn(HeaderValueConnectionToken);
    if |left| > 0 {
      RestTail(left);
      ValueTail(left, 1);
    }
    if |left| > 0 && (left[0] == COMMA || IsValueOctet(left[0])) {
      var comma := left[0] == COMMA;
      var next := Conn(if comma then HeaderValueConnection else HeaderValueConnectionToken);
      var d := c.(place := next, pending := Extend(c.pending, [left[0]]));
      if InValue(d, next) {
        TokenOn(r, d, comma, left, rest);
      }
      PartOn(r, c, here, next, left, rest, If(IsRest(left), AfterFields(c.fields, left)), ExtraAfter(left));
    } else {
      TokenOver(r, c, left, rest);
    }
  }

  /** Nothing follows. */
  lemma NoMore(left: seq<byte>)
    ensures left == [] ==> CommaAt(left) == 0 && !HasComma(left) && IsRest(left)
  {
  }

  lemma TokenOver(r: Reply, c: Config, left: seq<byte>, rest: seq<byte>)
    requires InValue(c, Conn(HeaderValueConnectionToken)) && NoLf(left)
    requires left == [] || (left[0] != COMMA && !IsValueOctet(left[0]))
    ensures PartEnds(r, c, left, rest, If(IsRest(left), AfterFields(c.fields, left)), ExtraAfter(left))
  {
    hide HttpRun, HttpReady;
    if |left| > 0 {
      RestTail(left);
    }
    NoMore(left);
    TokenEnds(r, c, left, rest);
  }

  lemma {:induction false} TokenOn(r: Reply, c: Config, comma: bool, left: seq<byte>, rest: seq<byte>)
    requires |left| > 0 && NoLf(left[1..]) && c.fields.headerState <= 1 && (comma <==> left[0] == COMMA)
    requires InValue(c, Conn(if comma then HeaderValueConnection else HeaderValueConnectionToken))
    requires !comma ==> IsValueOctet(left[0])
    ensures PartEnds(r, c, left[1..], rest, If(IsRest(left), AfterFields(c.fields, left)), ExtraAfter(left))
    decreases |left|, 0
  {
    hide HttpRun, HttpReady;
    RestTail(left);
    if comma {
      assert CommaAt(left) == 0 && Behind(left) == left[1..];
      Listed(r, c, left[1..], rest);
    } else {
      CommaTail(left, 1);
      ExtraTail(left, 1);
      Token(r, c, left[1..], rest);
    }
  }

  /** From the start of an element: for any octets of one line, exactly the lists are accepted, and they leave the fields
      as their elements say. */
  lemma {:induction false} Listed(r: Reply, c: Config, left: seq<byte>, rest: seq<byte>)
    requires InValue(c, Conn(HeaderValueConnection)) && c.fields.headerState <= 1 && NoLf(left)
    ensures PartEnds(r, c, left, rest, If(IsList(left), ListFields(c.fields, left)), ExtraOctets(left))
    decreases |left|, 3
  {
    hide HttpRun, HttpReady;
    if |left| > 0 && Skipped(left[0]) {
      ListedSkip(r, c, left, rest);
    } else if |left| > 0 && AsWord(left[0]) == 0x63 {
      ListedWord(r, c, 0x63, HeaderValueConnection1, LOSE, 6, left, rest);
    } else if |left| > 0 && AsWord(left[0]) == 0x6b {
      ListedWord(r, c, 0x6b, HeaderValueConnection2, EEP_ALIVE, 5, left, rest);
    } else if |left| > 0 && AsWord(left[0]) == 0x75 {
      ListedWord(r, c, 0x75, HeaderValueConnection3, PGRADE, 7, left, rest);
    } else {
      ListedOther(r, c, left, rest);
    }
  }

  lemma {:induction false} ListedSkip(r: Reply, c: Config, left: seq<byte>, rest: seq<byte>)
    requires InValue(c, Conn(HeaderValueConnection)) && c.fields.headerState <= 1 && NoLf(left)
    requires |left| > 0 && Skipped(left[0])
    ensures PartEnds(r, c, left, rest, If(IsList(left), ListFields(c.fields, left)), ExtraOctets(left))
    decreases |left|, 2
  {
    hide HttpRun, HttpReady, PartEnds, IsList, ListFields, ExtraOctets;
    var here := Conn(HeaderValueConnection);
    ListSkip(left);
    ExtraSkip(left);
    ValueTail(left, 1);
    SkippedOctet(left[0]);
    var d := c.(pending := Extend(c.pending, [left[0]]));
    if InValue(d, here) {
      Listed(r, d, left[1..], rest);
    }
    PartOn(r, c, here, here, left, rest, If(IsList(left), ListFields(c.fields, left)), ExtraOctets(left));
  }

  lemma SkippedOctet(x: byte)
    requires Skipped(x)
    ensures Dispatch(Conn(HeaderValueConnection), x) == Advance(Conn(HeaderValueConnection))
  {
  }

  lemma ExtraSkip(left: seq<byte>)
    requires |left| > 0 && Skipped(left[0])
    ensures ExtraOctets(left) == ExtraOctets(left[1..])
  {
    assert CommaAt(left) > 0;
    BehindTail(left, 1);
  }

  lemma {:induction false} ListedOther(r: Reply, c: Config, left: seq<byte>, rest: seq<byte>)
    requires InValue(c, Conn(HeaderValueConnection)) && c.fields.headerState <= 1 && NoLf(left)
    requires |left| > 0 ==> IsOther(left[0])
    ensures PartEnds(r, c, left, rest, If(IsList(left), ListFields(c.fields, left)), ExtraOctets(left))
    decreases |left|, 2
  {
    hide HttpRun, HttpReady;
    ElementOther(c.fields, left);
    ListRest(left);
    LineOctet(left);
    assert left != [] ==> left[0] in left;
    OtherOctet((left + CRLF)[0]);
    var next := Conn(HeaderValueConnectionToken);
    var d := c.(place := next);
    if InValue(d, next) {
      Token(r, d, left, rest);
    }
    PartAside(r, c, Conn(HeaderValueConnection), next, left, rest, If(IsList(left), ListFields(c.fields, left)),
              ExtraOctets(left));
  }

  lemma OtherOctet(x: byte)
    requires IsOther(x) && x != LF
    ensures Dispatch(Conn(HeaderValueConnection), x) == Stay(Conn(HeaderValueConnectionToken))
  {
  }

  /** An element that begins like one of the words. */
  lemma {:induction false} ListedWord(r: Reply, c: Config, x: byte, at: ConnLabel, word: seq<byte>, n: nat,
                                      left: seq<byte>, rest: seq<byte>)
    requires InValue(c, Conn(HeaderValueConnection)) && c.fields.headerState <= 1 && NoLf(left)
    requires |left| > 0 && ListWord(x, at, word, n) && AsWord(left[0]) == x
    ensures PartEnds(r, c, left, rest, If(IsList(left), ListFields(c.fields, left)), ExtraOctets(left))
    decreases |left|, 2
  {
    hide HttpRun, HttpReady;
    ListWordOctet(left[0], x, at, word, n);
    ListTail(left, x);
    ValueTail(left, 1);
    var d := c.(place := Conn(at), pending := Extend(c.pending, [left[0]]));
    if InValue(d, Conn(at)) {
      ListedBehind(r, d, x, at, word, n, left, rest);
    }
    PartOn(r, c, Conn(HeaderValueConnection), Conn(at), left, rest, If(IsList(left), ListFields(c.fields, left)),
           ExtraOctets(left));
  }

  lemma {:induction false} ListedBehind(r: Reply, c: Config, x: byte, at: ConnLabel, word: seq<byte>, n: nat,
                                        left: seq<byte>, rest: seq<byte>)
    requires |left| > 0 && NoLf(left[1..]) && ListWord(x, at, word, n) && AsWord(left[0]) == x
    requires InValue(c, Conn(at)) && c.fields.headerState <= 1 && (IsList(left) <==> IsTail(x, left[1..]))
    ensures PartEnds(r, c, left[1..], rest, If(IsList(left), ListFields(c.fields, left)), ExtraOctets(left))
    decreases |left|, 0
  {
    hide HttpRun, HttpReady;
    if BeginsWith(left[1..], word) {
      ElementHit(c.fields, left, x, at, word, n);
      ListedHit(r, c, x, at, word, n, left[1..], rest);
    } else {
      ElementMiss(c.fields, left, x, at, word, n);
      KeepByOctet(left);
      ListedMiss(r, c, x, at, word, n, left[1..], rest);
    }
  }

  /** The rest of "keep" at the end of the line. */
  predicate IsEep(x: byte, t: seq<byte>) {
    x == 0x6b && |t| == 3 && BeginsWith(t, EEP)
  }

  lemma KeepByOctet(left: seq<byte>)
    requires |left| > 0 && !Skipped(left[0])
    ensures CommaAt(left) == |left| && IsKeep(left) <==> IsEep(AsWord(left[0]), left[1..])
  {
    KeepBegins(left);
    if IsEep(AsWord(left[0]), left[1..]) {
      KeepHasNoComma(left);
    }
  }

  lemma KeepHasNoComma(left: seq<byte>)
    requires |left| == 4 && BeginsWith(left, KEEP)
    ensures CommaAt(left) == 4
  {
    forall j | 0 <= j < 4 ensures left[j] != COMMA {
      assert AsWord(left[j]) == KEEP[j];
    }
  }

  lemma {:induction false} ListedHit(r: Reply, c: Config, x: byte, at: ConnLabel, word: seq<byte>, n: nat,
                                     t: seq<byte>, rest: seq<byte>)
    requires InValue(c, Conn(at)) && c.fields.headerState <= 1 && NoLf(t)
    requires ListWord(x, at, word, n) && BeginsWith(t, word)
    ensures var u := t[|word|..];
      PartEnds(r, c, t, rest, If(IsTail(x, t), MarkFields(c.fields, n, u)), ExtraAfter(u))
    decreases |t|, 2
  {
    hide HttpRun, HttpReady, PartEnds, IsRest, IsTail, MarkFields, ExtraAfter;
    ListWordAt(x, at, word, n);
    var w, u := t[..|word|], t[|word|..];
    assert t == w + u;
    Front(t, word);
    HitAgrees(t, word);
    TailRest(x, at, word, n, t, |word|);
    ValueTail(t, |word|);
    WordMatched(r, c, x, at, word, n, w, u + (CRLF + rest));
    var d := c.(place := Conn(UpdateConnectionState(n)), pending := Extend(c.pending, w));
    MarkedFrom(r, d, n, u, rest);
    PartLater(r, c, d, w, u, rest, If(IsRest(u), MarkFields(c.fields, n, u)), ExtraAfter(u));
  }

  lemma {:induction false} MarkedFrom(r: Reply, c: Config, n: nat, u: seq<byte>, rest: seq<byte>)
    requires InValue(c, Conn(UpdateConnectionState(n))) && NoLf(u) && 5 <= n <= 7
    ensures PartEnds(r, c, u, rest, If(IsRest(u), MarkFields(c.fields, n, u)), ExtraAfter(u))
    decreases |u|, 5
  {
    hide HttpRun, HttpReady;
    var next := Conn(HeaderValueConnectionWs);
    var d := c.(place := next, fields := c.fields.(headerState := n));
    MarkAgain(c.fields, n, u);
    if InValue(d, next) {
      Marked(r, d, n, u, rest);
    }
    PartVia(r, c, Conn(UpdateConnectionState(n)), next, u, rest, If(IsRest(u), MarkFields(c.fields, n, u)), ExtraAfter(u));
  }

  lemma MarkAgain(f: Fields, n: nat, u: seq<byte>)
    ensures MarkFields(f.(headerState := n), n, u) == MarkFields(f, n, u)
  {
  }

  /** Behind a word of the list: it counts if nothing but spaces follows before the comma. */
  lemma {:induction false} Marked(r: Reply, c: Config, n: nat, left: seq<byte>, rest: seq<byte>)
    requires InValue(c, Conn(HeaderValueConnectionWs)) && c.fields.headerState == n && 5 <= n <= 7 && NoLf(left)
    ensures PartEnds(r, c, left, rest, If(IsRest(left), MarkFields(c.fields, n, left)), ExtraAfter(left))
    decreases |left|, 4
  {
    hide HttpRun, HttpReady;
    if left == [] || left[0] == CR {
      MarkedEnd(c.fields, n, left);
      MarkEnds(r, c, left, rest);
    } else if left[0] == SP {
      MarkedSpace(r, c, n, left, rest);
    } else if left[0] == COMMA {
      MarkedComma(r, c, n, left, rest);
    } else {
      MarkedOther(r, c, n, left, rest);
    }
  }

  lemma MarkedEnd(f: Fields, n: nat, left: seq<byte>)
    requires f.headerState == n && (left == [] || left[0] == CR)
    ensures left == [] ==> IsRest(left) && MarkFields(f, n, left) == f && ExtraAfter(left) == []
    ensures left != [] ==> !IsRest(left)
  {
    if left == [] {
      assert left[..CommaAt(left)] == [] && f.(headerState := n) == f;
    } else {
      RestTail(left);
    }
  }

  lemma SpaceFields(f: Fields, n: nat, left: seq<byte>)
    requires |left| > 0 && left[0] == SP
    ensures MarkFields(f, n, left) == MarkFields(f, n, left[1..]) && ExtraAfter(left) == ExtraAfter(left[1..])
    ensures IsRest(left) <==> IsRest(left[1..])
  {
    RestTail(left);
    BehindTail(left, 1);
    ExtraTail(left, 1);
    var e := left[..CommaAt(left)];
    assert e[0] == SP && e[1..] == left[1..][..CommaAt(left[1..])];
    SpacesTail(e);
  }

  lemma {:induction false} MarkedSpace(r: Reply, c: Config, n: nat, left: seq<byte>, rest: seq<byte>)
    requires InValue(c, Conn(HeaderValueConnectionWs)) && c.fields.headerState == n && 5 <= n <= 7 && NoLf(left)
    requires |left| > 0 && left[0] == SP
    ensures PartEnds(r, c, left, rest, If(IsRest(left), MarkFields(c.fields, n, left)), ExtraAfter(left))
    decreases |left|, 3
  {
    hide HttpRun, HttpReady;
    var here := Conn(HeaderValueConnectionWs);
    SpaceFields(c.fields, n, left);
    ValueTail(left, 1);
    var d := c.(pending := Extend(c.pending, [left[0]]));
    if InValue(d, here) {
      Marked(r, d, n, left[1..], rest);
    }
    PartOn(r, c, here, here, left, rest, If(IsRest(left), MarkFields(c.fields, n, left)), ExtraAfter(left));
  }

  lemma CommaFields(f: Fields, n: nat, left: seq<byte>)
    requires |left| > 0 && left[0] == COMMA && f.headerState == n
    ensures MarkFields(f, n, left) == ListFields(SettleHeaderState(f), left[1..])
    ensures ExtraAfter(left) == ExtraOctets(left[1..]) && (IsRest(left) <==> IsList(left[1..]))
  {
    RestTail(left);
    assert CommaAt(left) == 0 && Behind(left) == left[1..] && left[..0] == [];
    assert f.(headerState := n) == f;
  }

  lemma {:induction false} MarkedComma(r: Reply, c: Config, n: nat, left: seq<byte>, rest: seq<byte>)
    requires InValue(c, Conn(HeaderValueConnectionWs)) && c.fields.headerState == n && 5 <= n <= 7 && NoLf(left)
    requires |left| > 0 && left[0] == COMMA
    ensures PartEnds(r, c, left, rest, If(IsRest(left), MarkFields(c.fields, n, left)), ExtraAfter(left))
    decreases |left|, 3
  {
    hide HttpRun, HttpReady, PartEnds, IsRest, MarkFields, ExtraAfter;
    var here, settle := Conn(HeaderValueConnectionWs), Conn(LoadHeaderState3);
    CommaFields(c.fields, n, left);
    ValueTail(left, 1);
    var d := c.(place := settle, pending := Extend(c.pending, [left[0]]));
    if InValue(d, settle) {
      MarkedSettles(r, d, n, left[1..], rest);
    }
    PartOn(r, c, here, settle, left, rest, If(IsRest(left), MarkFields(c.fields, n, left)), ExtraAfter(left));
  }

  lemma {:induction false} MarkedSettles(r: Reply, c: Config, n: nat, left: seq<byte>, rest: seq<byte>)
    requires InValue(c, Conn(LoadHeaderState3)) && c.fields.headerState == n && 5 <= n <= 7 && NoLf(left)
    ensures PartEnds(r, c, left, rest, If(IsList(left), ListFields(SettleHeaderState(c.fields), left)), ExtraOctets(left))
    decreases |left|, 5
  {
    hide HttpRun, HttpReady;
    var next := Conn(HeaderValueConnection);
    var d := c.(place := next, fields := SettleHeaderState(c.fields));
    if InValue(d, next) {
      Listed(r, d, left, rest);
    }
    PartVia(r, c, Conn(LoadHeaderState3), next, left, rest, If(IsList(left), ListFields(d.fields, left)),
            ExtraOctets(left));
  }

  lemma OtherFields(f: Fields, n: nat, left: seq<byte>)
    requires |left| > 0 && left[0] != SP && left[0] != COMMA
    ensures MarkFields(f, n, left) == AfterFields(f.(headerState := 0), left)
  {
    var e := left[..CommaAt(left)];
    assert CommaAt(left) > 0 && e[0] != SP;
    Unsettled(f.(headerState := 0));
  }

  /** A word with something else behind it is no word of the list. */
  lemma {:induction false} MarkedOther(r: Reply, c: Config, n: nat, left: seq<byte>, rest: seq<byte>)
    requires InValue(c, Conn(HeaderValueConnectionWs)) && c.fields.headerState == n && 5 <= n <= 7 && NoLf(left)
    requires |left| > 0 && left[0] != SP && left[0] != COMMA && left[0] != CR
    ensures PartEnds(r, c, left, rest, If(IsRest(left), MarkFields(c.fields, n, left)), ExtraAfter(left))
    decreases |left|, 3
  {
    hide HttpRun, HttpReady;
    var clear := Conn(ClearConnectionState);
    OtherFields(c.fields, n, left);
    LineOctet(left);
    assert left[0] in left;
    if InValue(c.(place := clear), clear) {
      Cleared(r, c.(place := clear), left, rest);
    }
    PartAside(r, c, Conn(HeaderValueConnectionWs), clear, left, rest, If(IsRest(left), MarkFields(c.fields, n, left)),
              ExtraAfter(left));
  }

  lemma {:induction false} Cleared(r: Reply, c: Config, left: seq<byte>, rest: seq<byte>)
    requires InValue(c, Conn(ClearConnectionState)) && NoLf(left)
    ensures PartEnds(r, c, left, rest, If(IsRest(left), AfterFields(c.fields.(headerState := 0), left)), ExtraAfter(left))
    decreases |left|, 2
  {
    hide HttpRun, HttpReady, PartEnds, IsRest, AfterFields, ExtraAfter;
    var next := Conn(HeaderValueConnectionToken);
    var d := c.(place := next, fields := c.fields.(headerState := 0));
    if InValue(d, next) {
      Token(r, d, left, rest);
    }
    PartVia(r, c, Conn(ClearConnectionState), next, left, rest, If(IsRest(left), AfterFields(d.fields, left)),
            ExtraAfter(left));
  }

  /** An element that stops going on as its word does. */
  lemma {:induction false} ListedMiss(r: Reply, c: Config, x: byte, at: ConnLabel, word: seq<byte>, n: nat,
                                      t: seq<byte>, rest: seq<byte>)
    requires InValue(c, Conn(at)) && c.fields.headerState <= 1 && NoLf(t)
    requires ListWord(x, at, word, n) && !BeginsWith(t, word)
    ensures var u := t[Agree(t, word)..];
      PartEnds(r, c, t, rest, If(IsTail(x, t), AfterFields(c.fields, u)), if IsEep(x, t) then [CR] else ExtraAfter(u))
    decreases |t|, 3
  {
    hide HttpRun, HttpReady;
    TailRest(x, at, word, n, t, Agree(t, word));
    if IsEep(x, t) {
      EepAgrees(t);
      NoMore([]);
      KeepLine(r, c, t, rest);
    } else {
      ListedOff(r, c, x, at, word, n, t, rest);
    }
  }

  lemma {:induction false} ListedOff(r: Reply, c: Config, x: byte, at: ConnLabel, word: seq<byte>, n: nat,
                                     t: seq<byte>, rest: seq<byte>)
    requires InValue(c, Conn(at)) && c.fields.headerState <= 1 && NoLf(t)
    requires ListWord(x, at, word, n) && !BeginsWith(t, word) && !IsEep(x, t)
    requires IsTail(x, t) <==> IsRest(t[Agree(t, word)..])
    ensures var u := t[Agree(t, word)..];
      PartEnds(r, c, t, rest, If(IsTail(x, t), AfterFields(c.fields, u)), ExtraAfter(u))
    decreases |t|, 2
  {
    hide HttpRun, HttpReady, PartEnds, IsRest, IsTail, AfterFields, ExtraAfter;
    var k := Agree(t, word);
    var w, u := t[..k], t[k..];
    assert t == w + u;
    MissedInList(x, at, word, n, t, rest);
    ValueTail(t, k);
    WordUnmatched(r, c, x, at, word, n, w, u + (CRLF + rest));
    var d := c.(place := Conn(HeaderValueConnectionToken), pending := Extend(c.pending, w));
    Token(r, d, u, rest);
    PartLater(r, c, d, w, u, rest, If(IsRest(u), AfterFields(c.fields, u)), ExtraAfter(u));
  }

  lemma EepAgrees(t: seq<byte>)
    requires |t| == 3 && BeginsWith(t, EEP)
    ensures t[Agree(t, EEP_ALIVE)..] == []
  {
    assert forall j | 0 <= j < 3 :: AsWord(t[j]) == EEP[j] == EEP_ALIVE[j];
  }

  /** What the matcher sees of an element that does not go on as the word does. */
  lemma MissedInList(x: byte, at: ConnLabel, word: seq<byte>, n: nat, t: seq<byte>, rest: seq<byte>)
    requires ListWord(x, at, word, n) && !BeginsWith(t, word) && !IsEep(x, t)
    ensures var k := Agree(t, word);
      && k < |word| && MatchesFrom(word, true, 0, t[..k])
      && Fold((t[k..] + (CRLF + rest))[0], true) != word[k]
  {
    ListWordAt(x, at, word, n);
    var k := Agree(t, word);
    var w := t[..k];
    assert word[..|word|] == word;
    forall j {:trigger w[j]} | 0 <= j < |w| ensures Fold(w[j], true) == word[0 + j] {
      assert w[j] == t[j] && word[..k][j] == word[j];
      FoldIsAsWord(t[j], word[j]);
    }
    if k < |t| {
      FoldIsAsWord(t[k], word[k]);
    } else {
      CrInWord(x, at, word, n, t);
    }
  }

  lemma CrInWord(x: byte, at: ConnLabel, word: seq<byte>, n: nat, t: seq<byte>)
    requires ListWord(x, at, word, n) && |t| < |word| && BeginsWith(t, word[..|t|]) && !IsEep(x, t)
    ensures Fold(CR, true) != word[|t|]
  {
    assert EEP_ALIVE[..3] == EEP;
  }

  // ---------------------------------------------------------------- what a list says

  /** The flag that is remembered. */
  function FlagBits(n: nat): bv8 {
    if FlagOf(n).Some? then FlagOf(n).value else 0
  }

  /** The header state once the flag has been set. */
  function Settled(n: nat): nat {
    if FlagOf(n).Some? && n != 8 then 1 else n
  }

  lemma SettledFields(f: Fields)
    ensures SettleHeaderState(f) == f.(flags := f.flags | FlagBits(f.headerState), headerState := Settled(f.headerState))
  {
    OrNothing(f.flags);
  }

  lemma OrTwice(a: bv8, b: bv8, c: bv8)
    ensures (a | b) | c == a | (b | c)
  {
  }

  lemma OrNothing(a: bv8)
    ensures a | 0 == a && 0 | a == a
  {
  }

  /** The header state behind a list. */
  function ListState(n: nat, s: seq<byte>): nat
    decreases |s|
  {
    var m := ElementState(n, s[..CommaAt(s)]);
    if HasComma(s) then ListState(Settled(m), Behind(s)) else m
  }

  /** The flags set by all elements but the last. */
  function ListFlags(n: nat, s: seq<byte>): bv8
    decreases |s|
  {
    var m := ElementState(n, s[..CommaAt(s)]);
    if HasComma(s) then FlagBits(m) | ListFlags(Settled(m), Behind(s)) else 0
  }

  lemma ListOn(f: Fields, s: seq<byte>)
    ensures var m := ElementState(f.headerState, s[..CommaAt(s)]); var g := f.(headerState := m); var n := f.headerState;
      && ListFields(f, s) == (if HasComma(s) then ListFields(SettleHeaderState(g), Behind(s)) else g)
      && ListState(n, s) == (if HasComma(s) then ListState(Settled(m), Behind(s)) else m)
      && ListFlags(n, s) == (if HasComma(s) then FlagBits(m) | ListFlags(Settled(m), Behind(s)) else 0)
  {
    hide ElementState, FlagBits, Settled, SettleHeaderState, CommaAt, HasComma, Behind;
  }

  lemma {:induction false} ListLeaves(f: Fields, s: seq<byte>)
    ensures var n := f.headerState;
      ListFields(f, s) == f.(flags := f.flags | ListFlags(n, s), headerState := ListState(n, s))
    decreases |s|
  {
    hide ElementState, FlagBits, Settled, SettleHeaderState, ListFields, ListState, ListFlags;
    var m := ElementState(f.headerState, s[..CommaAt(s)]);
    var g := f.(headerState := m);
    ListOn(f, s);
    if HasComma(s) {
      SettledFields(g);
      ListLeaves(SettleHeaderState(g), Behind(s));
      OrTwice(f.flags, FlagBits(m), ListFlags(Settled(m), Behind(s)));
    } else {
      OrNothing(f.flags);
    }
  }

  /** The flag of one element of the list: spaces around it do not count, and words the parser does not know say
      nothing. */
  function TokenFlag(e: seq<byte>): bv8 {
    if |e| > 0 && Skipped(e[0]) then TokenFlag(e[1..])
    else if IsWord(e, CLOSE) then F_CONNECTION_CLOSE
    else if IsWord(e, KEEP_ALIVE) then F_CONNECTION_KEEP_ALIVE
    else if IsWord(e, UPGRADE) then F_CONNECTION_UPGRADE
    else 0
  }

  /** The flags of a list with commas between its elements. */
  function ConnectionFlags(s: seq<byte>): bv8
    decreases |s|
  {
    TokenFlag(s[..CommaAt(s)]) | if HasComma(s) then ConnectionFlags(Behind(s)) else 0
  }

  predicate Commaless(e: seq<byte>) {
    forall i {:trigger e[i]} | 0 <= i < |e| :: e[i] != COMMA
  }

  /** A list of one element. */
  lemma OneElement(e: seq<byte>)
    requires Commaless(e)
    ensures !HasComma(e) && CommaAt(e) == |e| && e[..CommaAt(e)] == e
    ensures ConnectionFlags(e) == TokenFlag(e) && (IsList(e) <==> IsElement(e))
  {
    hide TokenFlag, IsElement;
    OrNothing(TokenFlag(e));
  }

  lemma {:induction false} ElementSays(n: nat, e: seq<byte>)
    requires n <= 1
    ensures FlagBits(ElementState(n, e)) == TokenFlag(e) && Settled(ElementState(n, e)) <= 1 && ElementState(n, e) <= 7
    decreases |e|
  {
    if |e| > 0 && Skipped(e[0]) {
      ElementSays(n, e[1..]);
    }
  }

  /** A list sets the flags of its elements, and no others. */
  lemma {:induction false} ListSays(n: nat, s: seq<byte>)
    requires n <= 1
    ensures ListFlags(n, s) | FlagBits(ListState(n, s)) == ConnectionFlags(s)
    ensures ListState(n, s) <= 7 && ListState(n, s) != 2 && ListState(n, s) != 3
    decreases |s|
  {
    var m := ElementState(n, s[..CommaAt(s)]);
    ElementSays(n, s[..CommaAt(s)]);
    StateRange(n, s[..CommaAt(s)]);
    OrNothing(FlagBits(m));
    if HasComma(s) {
      ListSays(Settled(m), Behind(s));
      OrTwice(FlagBits(m), ListFlags(Settled(m), Behind(s)), FlagBits(ListState(Settled(m), Behind(s))));
    }
  }

  lemma {:induction false} StateRange(n: nat, e: seq<byte>)
    ensures var m := ElementState(n, e); m == n || m == 0 || 5 <= m <= 7
    decreases |e|
  {
    if |e| > 0 && Skipped(e[0]) {
      StateRange(n, e[1..]);
    }
  }
}
