/** Header names: which of them the parser treats specially, decided octet by octet while the name is read. */
module LlhttpNames {
  import opened Bytes
  import opened LlhttpTypes
  import opened LlhttpTables
  import opened Llparse
  import opened LlparseBulk
  import opened LlhttpProgram

  const HYPHEN: byte := 0x2d

  // connection, proxy-connection, content-length, transfer-encoding, upgrade
  const CONNECTION: seq<byte> := [0x63, 0x6f, 0x6e, 0x6e, 0x65, 0x63, 0x74, 0x69, 0x6f, 0x6e]
  const PROXY_CONNECTION: seq<byte> := [0x70, 0x72, 0x6f, 0x78, 0x79, 0x2d] + CONNECTION
  const CONTENT_LENGTH: seq<byte> :=
    [0x63, 0x6f, 0x6e, 0x74, 0x65, 0x6e, 0x74, 0x2d, 0x6c, 0x65, 0x6e, 0x67, 0x74, 0x68]
  const TRANSFER_ENCODING: seq<byte> :=
    [0x74, 0x72, 0x61, 0x6e, 0x73, 0x66, 0x65, 0x72, 0x2d, 0x65, 0x6e, 0x63, 0x6f, 0x64, 0x69, 0x6e, 0x67]
  const UPGRADE: seq<byte> := [0x75, 0x70, 0x67, 0x72, 0x61, 0x64, 0x65]

  /** What the matcher takes an octet for. Setting one bit folds the case of letters, and makes a hyphen of a CR. */
  function AsWord(c: byte): byte {
    if c == CR then HYPHEN else ToLower(c)
  }

  /** `s` begins with the word, as the matcher sees it. */
  predicate BeginsWith(s: seq<byte>, word: seq<byte>) {
    |word| <= |s| && forall j {:trigger s[j]} {:trigger word[j]} | 0 <= j < |word| :: AsWord(s[j]) == word[j]
  }

  predicate Spaces(s: seq<byte>) {
    forall i {:trigger s[i]} | 0 <= i < |s| :: s[i] == SP
  }

  // the marks in a token of section 3.2.6 of RFC 7230
  const TOKEN_MARKS: seq<byte> := [0x21, 0x23, 0x24, 0x25, 0x26, 0x27, 0x2a, 0x2b, 0x2d, 0x2e, 0x5e, 0x5f, 0x60, 0x7c, 0x7e]

  /** The octets of a name are those of a token, and the space. */
  lemma FieldOctets(c: byte)
    ensures IsFieldOctet(c) <==>
      0x30 <= c <= 0x39 || 0x41 <= c <= 0x5a || 0x61 <= c <= 0x7a || c in TOKEN_MARKS || c == SP
  {
  }

  /** `s` is the word, as the matcher sees it, and perhaps spaces behind it. */
  predicate IsWord(s: seq<byte>, word: seq<byte>) {
    BeginsWith(s, word) && Spaces(s[|word|..])
  }

  /** The octets of a name. */
  predicate IsPlain(s: seq<byte>) {
    forall i {:trigger s[i]} | 0 <= i < |s| :: IsFieldOctet(s[i])
  }

  /** A CR that the matcher takes for the hyphen of the word: all before it agrees with the word. */
  predicate CrFor(s: seq<byte>, word: seq<byte>, i: nat)
    requires i < |s|
  {
    s[i] == CR && i < |word| && word[i] == HYPHEN && BeginsWith(s[..i], word[..i])
  }

  /** The octets of a name, but for a CR in place of the word's hyphen. */
  predicate GoesOn(s: seq<byte>, word: seq<byte>) {
    forall i: nat {:trigger s[i]} | i < |s| :: IsFieldOctet(s[i]) || CrFor(s, word, i)
  }

  /** The names the parser accepts: octets of a name, and a CR where one of the three names with a hyphen has it. */
  predicate IsName(s: seq<byte>) {
    GoesOn(s, PROXY_CONNECTION) || GoesOn(s, CONTENT_LENGTH) || GoesOn(s, TRANSFER_ENCODING)
  }

  predicate NoColon(s: seq<byte>) {
    COLON !in s
  }

  /** The header state of a name: 1 for the two Connection headers, 2, 3 and 4 for Content-Length, Transfer-Encoding and
      Upgrade, 0 for all others. */
  function StateOf(name: seq<byte>): nat {
    if IsWord(name, CONNECTION) || IsWord(name, PROXY_CONNECTION) then 1
    else if IsWord(name, CONTENT_LENGTH) then 2
    else if IsWord(name, TRANSFER_ENCODING) then 3
    else if IsWord(name, UPGRADE) then 4
    else 0
  }

  // ---------------------------------------------------------------- words

  /** A letter of a word. */
  predicate IsWordOctet(x: byte) {
    0x61 <= x <= 0x7a || x == HYPHEN
  }

  predicate IsWordText(word: seq<byte>) {
    forall j {:trigger word[j]} | 0 <= j < |word| :: IsWordOctet(word[j])
  }

  /** Setting one bit is taking octets for letters and hyphens as AsWord says, whatever the octet. */
  lemma FoldIsAsWord(c: byte, x: byte)
    requires IsWordOctet(x)
    ensures Fold(c, true) == x <==> AsWord(c) == x
  {
  }

  lemma PlainTail(s: seq<byte>, k: nat)
    requires k <= |s|
    ensures IsPlain(s) ==> IsPlain(s[k..])
    ensures NoColon(s) ==> NoColon(s[k..])
  {
    assert forall i {:trigger s[k..][i]} | 0 <= i < |s| - k :: s[k..][i] == s[k + i];
  }

  lemma PlainGoesOn(s: seq<byte>, word: seq<byte>)
    ensures IsPlain(s) ==> GoesOn(s, word)
    ensures (forall j {:trigger word[j]} | 0 <= j < |word| :: word[j] != HYPHEN) ==> (GoesOn(s, word) <==> IsPlain(s))
  {
  }

  lemma SplitWord(s: seq<byte>, x: seq<byte>, y: seq<byte>)
    ensures IsWord(s, x + y) <==> BeginsWith(s, x) && IsWord(s[|x|..], y)
  {
    var w := x + y;
    assert forall j {:trigger w[j]} | 0 <= j < |x| :: w[j] == x[j];
    assert forall j {:trigger y[j]} | 0 <= j < |y| :: w[|x| + j] == y[j];
    if |x| <= |s| {
      var t := s[|x|..];
      assert forall j {:trigger t[j]} | 0 <= j < |t| :: t[j] == s[|x| + j];
      if |w| <= |s| {
        assert t[|y|..] == s[|w|..];
      }
    }
  }

  predicate NoHyphen(x: seq<byte>) {
    forall j {:trigger x[j]} | 0 <= j < |x| :: x[j] != HYPHEN
  }

  /** Behind the first part of a word its CR is that of the rest. */
  lemma CrForRest(s: seq<byte>, x: seq<byte>, y: seq<byte>, i: nat)
    requires NoHyphen(x) && BeginsWith(s, x) && i < |s| - |x|
    ensures CrFor(s, x + y, |x| + i) <==> CrFor(s[|x|..], y, i)
  {
    var w, t := x + y, s[|x|..];
    if i < |y| {
      var a, b := s[..|x| + i], w[..|x| + i];
      var c, d := t[..i], y[..i];
      assert forall j {:trigger c[j]} {:trigger d[j]} | 0 <= j < i :: c[j] == a[|x| + j] && d[j] == b[|x| + j];
      assert forall j {:trigger a[j]} {:trigger b[j]} | 0 <= j < |x| + i ::
        a[j] == s[j] && (j < |x| ==> b[j] == x[j]) && (j >= |x| ==> a[j] == c[j - |x|] && b[j] == d[j - |x|]);
    }
  }

  /** In the first part of a word without a hyphen there is no CR. */
  lemma NoCrIn(s: seq<byte>, x: seq<byte>, y: seq<byte>, i: nat)
    requires NoHyphen(x) && i < |s| && i < |x|
    ensures !CrFor(s, x + y, i)
  {
    assert (x + y)[i] == x[i];
  }

  /** Nor behind a part that does not agree. */
  lemma NoCrBehind(s: seq<byte>, x: seq<byte>, y: seq<byte>, i: nat)
    requires |x| <= i < |s| && !BeginsWith(s, x)
    ensures !CrFor(s, x + y, i)
  {
    var w := x + y;
    if i < |w| && BeginsWith(s[..i], w[..i]) {
      forall j | 0 <= j < |x| ensures AsWord(s[j]) == x[j] {
        assert s[..i][j] == s[j] && w[..i][j] == x[j];
      }
      assert BeginsWith(s, x);
    }
  }

  /** A name that goes on with a word, behind the word's first part. */
  lemma GoesOnSplit(s: seq<byte>, x: seq<byte>, y: seq<byte>)
    requires NoHyphen(x) && IsWordText(x)
    ensures GoesOn(s, x + y) <==> if BeginsWith(s, x) then GoesOn(s[|x|..], y) else IsPlain(s)
  {
    if BeginsWith(s, x) {
      var t := s[|x|..];
      assert forall i {:trigger s[i]} | 0 <= i < |x| :: AsWord(s[i]) == x[i] && IsWordOctet(x[i]) && IsFieldOctet(s[i]);
      forall i: nat | i < |t| ensures t[i] == s[|x| + i] && (CrFor(s, x + y, |x| + i) <==> CrFor(t, y, i)) {
        CrForRest(s, x, y, i);
      }
      assert forall i {:trigger s[i]} | |x| <= i < |s| :: s[i] == t[i - |x|];
    } else {
      forall i: nat | i < |s| ensures !CrFor(s, x + y, i) {
        if i < |x| {
          NoCrIn(s, x, y, i);
        } else {
          NoCrBehind(s, x, y, i);
        }
      }
    }
  }

  // ---------------------------------------------------------------- the end of a name

  predicate BadToken(o: Outcome) {
    o.Stopped? && o.code == 10 && o.reason == InvalidHeaderToken
  }

  /** The parser reads the rest of a name, the colon, and what follows: the name's span ends and its state is `n`; or,
      for None, the name is refused. */
  ghost predicate NameEnds(r: Reply, c: Config, left: seq<byte>, tail: seq<byte>, n: Option<nat>)
    requires HttpReady(c) && c.pending.Some?
  {
    match n
    case None => BadToken(HttpRun(r, c, left + ([COLON] + tail)))
    case Some(state) =>
      var d := Named(c, left, state);
      HttpReady(d) && HttpRun(r, c, left + ([COLON] + tail)) == HttpRun(r, d, tail)
  }

  function Named(c: Config, left: seq<byte>, n: nat): Config
    requires c.pending.Some?
  {
    Config(Value(HeaderValueDiscardWs), c.fields.(index := 0, headerState := n), None,
           c.out + [Span(FieldSpan, c.pending.value.octets + left)])
  }

  function Read(accepted: bool, n: nat): Option<nat> {
    if accepted then Some(n) else None
  }

  /** In the middle of a name. */
  predicate InName(c: Config, l: FieldLabel) {
    HttpReady(c) && c.place == Field(l) && c.fields.index == 0 && c.pending.Some? && c.pending.value.kind == FieldSpan
  }

  lemma GeneralColon(r: Reply, c: Config, tail: seq<byte>)
    requires InName(c, HeaderFieldGeneral)
    ensures NameEnds(r, c, [], tail, Some(c.fields.headerState))
  {
    var input := [COLON] + tail;
    assert [] + input == input && c.pending.value.octets + [] == c.pending.value.octets;
    var d := c.(place := Field(HeaderFieldGeneralOtherwise));
    Slide(r, c, input, d);
    ColonTaken(r, d, tail);
  }

  lemma ColonTaken(r: Reply, c: Config, tail: seq<byte>)
    requires HttpReady(c) && c.place == Field(HeaderFieldGeneralOtherwise)
    requires c.pending.Some? && c.pending.value.kind == FieldSpan
    ensures var d := Close(c, FieldSpan, Value(HeaderValueDiscardWs));
      HttpReady(d) && HttpRun(r, c, [COLON] + tail) == HttpRun(r, d, tail)
  {
    var input := [COLON] + tail;
    assert input[1..] == tail;
    Take(r, c, input, Close(c, FieldSpan, Value(HeaderValueDiscardWs)));
  }

  lemma GeneralOctet(r: Reply, c: Config, x: byte, rest: seq<byte>)
    requires InName(c, HeaderFieldGeneral) && IsFieldOctet(x)
    ensures var d := c.(pending := Extend(c.pending, [x]));
      InName(d, HeaderFieldGeneral) && HttpRun(r, c, [x] + rest) == HttpRun(r, d, rest)
  {
    assert ([x] + rest)[1..] == rest;
    Take(r, c, [x] + rest, c.(pending := Extend(c.pending, [x])));
  }

  lemma GeneralRefused(r: Reply, c: Config, input: seq<byte>)
    requires InName(c, HeaderFieldGeneral) && |input| > 0 && !IsFieldOctet(input[0]) && input[0] != COLON
    ensures BadToken(HttpRun(r, c, input))
  {
    var d := c.(place := Field(HeaderFieldGeneralOtherwise));
    Slide(r, c, input, d);
    OtherwiseRefused(r, d, input);
  }

  lemma OtherwiseRefused(r: Reply, c: Config, input: seq<byte>)
    requires HttpReady(c) && c.place == Field(HeaderFieldGeneralOtherwise) && |input| > 0 && input[0] != COLON
    ensures BadToken(HttpRun(r, c, input))
  {
    var e := c.(place := Fail(10, InvalidHeaderToken));
    Slide(r, c, input, e);
    HttpOn(r, e, input);
  }

  /** From `c` to `d` the parser took `w`, and nothing changed but the header state. */
  predicate Took(c: Config, d: Config, w: seq<byte>) {
    && HttpReady(c) && HttpReady(d) && c.pending.Some? && d.pending == Extend(c.pending, w) && d.out == c.out
    && d.fields == c.fields.(headerState := d.fields.headerState)
  }

  /** Octets taken before the rest of a name. */
  lemma EndsLater(r: Reply, c: Config, d: Config, w: seq<byte>, left: seq<byte>, tail: seq<byte>, n: Option<nat>)
    requires Took(c, d, w)
    requires HttpRun(r, c, w + (left + ([COLON] + tail))) == HttpRun(r, d, left + ([COLON] + tail))
    requires NameEnds(r, d, left, tail, n)
    ensures NameEnds(r, c, w + left, tail, n)
  {
    Regroup(w, left, [COLON] + tail);
    Regroup(c.pending.value.octets, w, left);
  }

  lemma {:induction false} General(r: Reply, c: Config, left: seq<byte>, tail: seq<byte>)
    requires InName(c, HeaderFieldGeneral) && NoColon(left)
    ensures NameEnds(r, c, left, tail, Read(IsPlain(left), c.fields.headerState))
    decreases |left|
  {
    hide HttpRun, HttpReady;
    if |left| == 0 {
      GeneralColon(r, c, tail);
    } else if IsFieldOctet(left[0]) {
      var x, more := left[0], left[1..];
      GeneralOctet(r, c, x, more + ([COLON] + tail));
      PlainTail(left, 1);
      PlainHead(left);
      var d := c.(pending := Extend(c.pending, [x]));
      General(r, d, more, tail);
      EndsLater(r, c, d, [x], more, tail, Read(IsPlain(left), c.fields.headerState));
      assert left == [x] + more;
    } else {
      assert left[0] in left;
      GeneralRefused(r, c, left + ([COLON] + tail));
    }
  }

  lemma PlainHead(s: seq<byte>)
    requires |s| > 0
    ensures IsPlain(s) <==> IsFieldOctet(s[0]) && IsPlain(s[1..])
  {
    assert forall i {:trigger s[1..][i]} | 0 <= i < |s| - 1 :: s[1..][i] == s[i + 1];
  }

  /** No special name after all. */
  lemma Cleared(r: Reply, c: Config, left: seq<byte>, tail: seq<byte>)
    requires InName(c, ClearHeaderState) && NoColon(left)
    ensures NameEnds(r, c, left, tail, Read(IsPlain(left), 0))
  {
    var d := c.(place := Field(HeaderFieldGeneral), fields := c.fields.(headerState := 0));
    Slide(r, c, left + ([COLON] + tail), d);
    General(r, d, left, tail);
  }

  lemma ColonColon(r: Reply, c: Config, tail: seq<byte>)
    requires InName(c, HeaderFieldColon)
    ensures NameEnds(r, c, [], tail, Some(c.fields.headerState))
  {
    var input := [COLON] + tail;
    assert [] + input == input && input[1..] == tail && c.pending.value.octets + [] == c.pending.value.octets;
    Take(r, c, input, Named(c, [], c.fields.headerState));
  }

  lemma ColonSpace(r: Reply, c: Config, rest: seq<byte>)
    requires InName(c, HeaderFieldColon)
    ensures var d := c.(pending := Extend(c.pending, [SP]));
      InName(d, HeaderFieldColon) && HttpRun(r, c, [SP] + rest) == HttpRun(r, d, rest)
  {
    assert ([SP] + rest)[1..] == rest;
    Take(r, c, [SP] + rest, c.(pending := Extend(c.pending, [SP])));
  }

  lemma ColonOther(r: Reply, c: Config, left: seq<byte>, tail: seq<byte>)
    requires InName(c, HeaderFieldColon) && NoColon(left) && |left| > 0 && left[0] != SP
    ensures NameEnds(r, c, left, tail, Read(IsPlain(left), 0))
  {
    assert left[0] in left;
    Slide(r, c, left + ([COLON] + tail), c.(place := Field(ClearHeaderState)));
    Cleared(r, c.(place := Field(ClearHeaderState)), left, tail);
  }

  lemma ColonOn(r: Reply, c: Config, left: seq<byte>, tail: seq<byte>, n: Option<nat>)
    requires InName(c, HeaderFieldColon) && |left| > 0 && left[0] == SP
    requires InName(c.(pending := Extend(c.pending, [SP])), HeaderFieldColon)
    requires NameEnds(r, c.(pending := Extend(c.pending, [SP])), left[1..], tail, n)
    ensures NameEnds(r, c, left, tail, n)
  {
    hide HttpRun, HttpReady, NameEnds;
    ColonSpace(r, c, left[1..] + ([COLON] + tail));
    EndsLater(r, c, c.(pending := Extend(c.pending, [SP])), [SP], left[1..], tail, n);
    assert left == [SP] + left[1..];
  }

  /** Behind a special name: only spaces before the colon keep it special. */
  lemma {:induction false} Colon(r: Reply, c: Config, left: seq<byte>, tail: seq<byte>)
    requires InName(c, HeaderFieldColon) && NoColon(left)
    ensures NameEnds(r, c, left, tail, Read(IsPlain(left), if Spaces(left) then c.fields.headerState else 0))
    decreases |left|
  {
    if |left| == 0 {
      ColonColon(r, c, tail);
    } else if left[0] == SP {
      PlainTail(left, 1);
      PlainHead(left);
      SpacesTail(left);
      ColonSpace(r, c, []);
      Colon(r, c.(pending := Extend(c.pending, [SP])), left[1..], tail);
      ColonOn(r, c, left, tail, Read(IsPlain(left), if Spaces(left) then c.fields.headerState else 0));
    } else {
      ColonOther(r, c, left, tail);
      assert !Spaces(left);
    }
  }

  lemma SpacesTail(s: seq<byte>)
    requires |s| > 0
    ensures Spaces(s) <==> s[0] == SP && Spaces(s[1..])
  {
    assert forall i {:trigger s[1..][i]} | 0 <= i < |s| - 1 :: s[1..][i] == s[i + 1];
  }

  // ---------------------------------------------------------------- the words of the special names

  /** How far a name agrees with a word. */
  function Agree(s: seq<byte>, word: seq<byte>): (k: nat)
    ensures k <= |word| && k <= |s| && BeginsWith(s, word[..k])
    ensures k == |word| || k == |s| || AsWord(s[k]) != word[k]
  {
    if |word| == 0 || |s| == 0 || AsWord(s[0]) != word[0] then 0
    else
      var k := Agree(s[1..], word[1..]);
      assert forall j {:trigger s[j]} | 0 < j < k + 1 :: s[j] == s[1..][j - 1] && word[j] == word[1..][..k][j - 1];
      k + 1
  }

  /** A block that matches a word, and where it goes then. */
  predicate WordAt(l: FieldLabel, word: seq<byte>, hit: FieldLabel) {
    && FieldNode(l).Match? && FieldNode(l).lower && Blob(FieldNode(l).blob) == word && IsWordText(word)
    && FieldNode(l).hit == Field(hit) && FieldNode(l).miss == Field(ClearHeaderState)
  }

  lemma WordHit(r: Reply, c: Config, l: FieldLabel, word: seq<byte>, hit: FieldLabel, w: seq<byte>, rest: seq<byte>)
    requires InName(c, l) && WordAt(l, word, hit) && |w| == |word| && BeginsWith(w, word)
    ensures var d := c.(place := Field(hit), pending := Extend(c.pending, w));
      HttpReady(d) && HttpRun(r, c, w + rest) == HttpRun(r, d, rest)
  {
    LlhttpWellFormed();
    forall j {:trigger w[j]} | 0 <= j < |w| ensures Fold(w[j], true) == word[j] {
      FoldIsAsWord(w[j], word[j]);
    }
    assert LLHTTP.node(c.place) == FieldNode(l) && LLHTTP.word(FieldNode(l).blob) == word;
    MatchHit(LLHTTP, r, c, w, rest);
  }

  lemma WordRefused(r: Reply, c: Config, l: FieldLabel, word: seq<byte>, hit: FieldLabel, w: seq<byte>, rest: seq<byte>)
    requires InName(c, l) && WordAt(l, word, hit) && |rest| > 0
    requires MatchesFrom(word, true, 0, w) && Fold(rest[0], true) != word[|w|]
    ensures var d := c.(place := Field(ClearHeaderState), pending := Extend(c.pending, w));
      InName(d, ClearHeaderState) && HttpRun(r, c, w + rest) == HttpRun(r, d, rest)
  {
    LlhttpWellFormed();
    assert LLHTTP.node(c.place) == FieldNode(l) && LLHTTP.word(FieldNode(l).blob) == word;
    MatchMiss(LLHTTP, r, c, w, rest);
  }

  lemma WordMissOn(r: Reply, c: Config, l: FieldLabel, word: seq<byte>, hit: FieldLabel, left: seq<byte>,
                   tail: seq<byte>, k: nat, n: Option<nat>)
    requires InName(c, l) && WordAt(l, word, hit) && k <= |left| && k < |word| && MatchesFrom(word, true, 0, left[..k])
    requires Fold((left[k..] + ([COLON] + tail))[0], true) != word[k]
    requires var d := c.(place := Field(ClearHeaderState), pending := Extend(c.pending, left[..k]));
      InName(d, ClearHeaderState) ==> NameEnds(r, d, left[k..], tail, n)
    ensures NameEnds(r, c, left, tail, n)
  {
    hide HttpRun, HttpReady, NameEnds, Fold, MatchesFrom;
    var w := left[..k];
    WordRefused(r, c, l, word, hit, w, left[k..] + ([COLON] + tail));
    EndsLater(r, c, c.(place := Field(ClearHeaderState), pending := Extend(c.pending, w)), w, left[k..], tail, n);
    assert left == w + left[k..];
  }

  /** Behind the part that agrees a CR is no octet of a name any more. */
  lemma GoesOnMissed(left: seq<byte>, word: seq<byte>)
    requires IsWordText(word) && !BeginsWith(left, word)
    ensures GoesOn(left, word) <==> IsPlain(left[Agree(left, word)..])
  {
    hide Agree, AsWord, IsFieldOctet, IsWordOctet;
    var k := Agree(left, word);
    var t := left[k..];
    assert word[..|word|] == word;
    forall i: nat {:trigger left[i]} | i < |left| ensures (i < k ==> IsFieldOctet(left[i]) || CrFor(left, word, i))
      && (i >= k ==> !CrFor(left, word, i) && left[i] == t[i - k])
    {
      if i < k {
        AgreedOctet(left, word, i);
      } else {
        NoCrAfter(left, word, i);
      }
    }
    assert forall i {:trigger t[i]} | 0 <= i < |t| :: t[i] == left[k + i];
  }

  lemma AgreedOctet(left: seq<byte>, word: seq<byte>, i: nat)
    requires IsWordText(word) && i < Agree(left, word)
    ensures IsFieldOctet(left[i]) || CrFor(left, word, i)
  {
    var k := Agree(left, word);
    assert word[..k][i] == word[i] && IsWordOctet(word[i]) && AsWord(left[i]) == word[i];
    if left[i] == CR {
      var s, w := left[..i], word[..i];
      assert forall j {:trigger s[j]} {:trigger w[j]} | 0 <= j < i :: s[j] == left[j] && w[j] == word[..k][j];
    }
  }

  lemma NoCrAfter(left: seq<byte>, word: seq<byte>, i: nat)
    requires Agree(left, word) <= i < |left| && !BeginsWith(left, word)
    ensures !CrFor(left, word, i)
  {
    assert word[..|word|] == word;
  }

  lemma WordMiss(r: Reply, c: Config, l: FieldLabel, word: seq<byte>, hit: FieldLabel, left: seq<byte>, tail: seq<byte>)
    requires InName(c, l) && WordAt(l, word, hit) && NoColon(left) && !BeginsWith(left, word)
    ensures NameEnds(r, c, left, tail, Read(GoesOn(left, word), 0))
  {
    var k := Agree(left, word);
    Missed(left, word, k, tail);
    PlainTail(left, k);
    GoesOnMissed(left, word);
    var d := c.(place := Field(ClearHeaderState), pending := Extend(c.pending, left[..k]));
    if InName(d, ClearHeaderState) {
      Cleared(r, d, left[k..], tail);
    }
    WordMissOn(r, c, l, word, hit, left, tail, k, Read(GoesOn(left, word), 0));
  }

  /** What the matcher sees of a name that does not go on as the word does. */
  lemma Missed(left: seq<byte>, word: seq<byte>, k: nat, tail: seq<byte>)
    requires IsWordText(word) && !BeginsWith(left, word) && k == Agree(left, word)
    ensures k < |word| && MatchesFrom(word, true, 0, left[..k])
    ensures Fold((left[k..] + ([COLON] + tail))[0], true) != word[k]
  {
    var w := left[..k];
    assert word[..|word|] == word;
    forall j {:trigger w[j]} | 0 <= j < |w| ensures Fold(w[j], true) == word[0 + j] {
      assert w[j] == left[j] && word[..k][j] == word[j];
      FoldIsAsWord(left[j], word[j]);
    }
    FoldIsAsWord((left[k..] + ([COLON] + tail))[0], word[k]);
  }

  // the parts the parser matches at one go
  const ON: seq<byte> := [0x6f, 0x6e]
  const ECTION: seq<byte> := [0x65, 0x63, 0x74, 0x69, 0x6f, 0x6e]
  const ENT_LENGTH: seq<byte> := [0x65, 0x6e, 0x74, 0x2d, 0x6c, 0x65, 0x6e, 0x67, 0x74, 0x68]
  const ROXY_CONNECTION: seq<byte> := [0x72, 0x6f, 0x78, 0x79, 0x2d] + CONNECTION
  const RANSFER_ENCODING: seq<byte> :=
    [0x72, 0x61, 0x6e, 0x73, 0x66, 0x65, 0x72, 0x2d, 0x65, 0x6e, 0x63, 0x6f, 0x64, 0x69, 0x6e, 0x67]
  const PGRADE: seq<byte> := [0x70, 0x67, 0x72, 0x61, 0x64, 0x65]

  /** A whole special name has been matched. */
  lemma Stored(r: Reply, c: Config, n: nat, left: seq<byte>, tail: seq<byte>)
    requires InName(c, StoreHeaderState(n)) && NoColon(left)
    ensures NameEnds(r, c, left, tail, Read(IsPlain(left), if Spaces(left) then n else 0))
  {
    var d := c.(place := Field(HeaderFieldColon), fields := c.fields.(headerState := n));
    Slide(r, c, left + ([COLON] + tail), d);
    Colon(r, d, left, tail);
  }

  /** A word taken at the start of a name's rest. */
  lemma WordOn(r: Reply, c: Config, l: FieldLabel, word: seq<byte>, hit: FieldLabel, left: seq<byte>, tail: seq<byte>,
               n: Option<nat>)
    requires InName(c, l) && WordAt(l, word, hit) && BeginsWith(left, word)
    requires var d := c.(place := Field(hit), pending := Extend(c.pending, left[..|word|]));
      HttpReady(d) ==> NameEnds(r, d, left[|word|..], tail, n)
    ensures NameEnds(r, c, left, tail, n)
  {
    var k := |word|;
    var w := left[..k];
    Front(left, word);
    WordHit(r, c, l, word, hit, w, left[k..] + ([COLON] + tail));
    EndsLater(r, c, c.(place := Field(hit), pending := Extend(c.pending, w)), w, left[k..], tail, n);
  }

  lemma Front(left: seq<byte>, word: seq<byte>)
    requires BeginsWith(left, word)
    ensures var w := left[..|word|]; BeginsWith(w, word) && left == w + left[|word|..]
  {
  }

  lemma WordStored(r: Reply, c: Config, l: FieldLabel, word: seq<byte>, n: nat, left: seq<byte>, tail: seq<byte>)
    requires InName(c, l) && WordAt(l, word, StoreHeaderState(n)) && NoColon(left) && BeginsWith(left, word)
    ensures NameEnds(r, c, left, tail, Read(IsPlain(left[|word|..]), if IsWord(left, word) then n else 0))
  {
    var k := |word|;
    PlainTail(left, k);
    var d := c.(place := Field(StoreHeaderState(n)), pending := Extend(c.pending, left[..k]));
    if HttpReady(d) {
      Stored(r, d, n, left[k..], tail);
    }
    WordOn(r, c, l, word, StoreHeaderState(n), left, tail, Read(IsPlain(left[k..]), if IsWord(left, word) then n else 0));
  }

  /** Behind a whole word there is no CR. */
  lemma GoesOnHit(left: seq<byte>, word: seq<byte>)
    requires IsWordText(word) && BeginsWith(left, word)
    ensures GoesOn(left, word) <==> IsPlain(left[|word|..])
  {
    var k, t := |word|, left[|word|..];
    forall i: nat {:trigger left[i]} | i < k ensures IsFieldOctet(left[i]) || CrFor(left, word, i) {
      HitOctet(left, word, i);
    }
    assert forall i: nat {:trigger left[i]} | k <= i < |left| :: left[i] == t[i - k];
    assert forall i {:trigger t[i]} | 0 <= i < |t| :: t[i] == left[k + i];
  }

  lemma HitOctet(left: seq<byte>, word: seq<byte>, i: nat)
    requires IsWordText(word) && BeginsWith(left, word) && i < |word|
    ensures IsFieldOctet(left[i]) || CrFor(left, word, i)
  {
    assert IsWordOctet(word[i]) && AsWord(left[i]) == word[i];
    if left[i] == CR {
      var s, w := left[..i], word[..i];
      assert forall j {:trigger s[j]} {:trigger w[j]} | 0 <= j < i :: s[j] == left[j] && w[j] == word[j];
    }
  }

  /** The last part of a special name. */
  lemma Word(r: Reply, c: Config, l: FieldLabel, word: seq<byte>, n: nat, left: seq<byte>, tail: seq<byte>)
    requires InName(c, l) && WordAt(l, word, StoreHeaderState(n)) && NoColon(left)
    ensures NameEnds(r, c, left, tail, Read(GoesOn(left, word), if IsWord(left, word) then n else 0))
  {
    if BeginsWith(left, word) {
      GoesOnHit(left, word);
      WordStored(r, c, l, word, n, left, tail);
    } else {
      WordMiss(r, c, l, word, StoreHeaderState(n), left, tail);
    }
  }

  lemma Words()
    ensures WordAt(HeaderField1, ON, HeaderField2)
    ensures WordAt(HeaderField3, ECTION, StoreHeaderState(1))
    ensures WordAt(HeaderField4, ENT_LENGTH, StoreHeaderState(2))
    ensures WordAt(HeaderField7, PGRADE, StoreHeaderState(4))
  {
  }

  lemma LongWords()
    ensures WordAt(HeaderField5, ROXY_CONNECTION, StoreHeaderState(1))
    ensures WordAt(HeaderField6, RANSFER_ENCODING, StoreHeaderState(3))
  {
  }

  // ---------------------------------------------------------------- the octets the parser branches on

  lemma OnwardOne(r: Reply, c: Config, l: FieldLabel, next: FieldLabel, x: byte, rest: seq<byte>)
    requires InName(c, l) && FieldNode(l).Peek? && FieldDispatch(l, x) == Advance(Field(next))
    ensures var d := c.(place := Field(next), pending := Extend(c.pending, [x]));
      HttpReady(d) && Took(c, d, [x]) && HttpRun(r, c, [x] + rest) == HttpRun(r, d, rest)
  {
    assert ([x] + rest)[1..] == rest;
    Take(r, c, [x] + rest, c.(place := Field(next), pending := Extend(c.pending, [x])));
  }

  /** A block that branches on an octet goes on inside a word. */
  lemma Onward(r: Reply, c: Config, l: FieldLabel, next: FieldLabel, left: seq<byte>, tail: seq<byte>,
               n: Option<nat>)
    requires InName(c, l) && FieldNode(l).Peek? && |left| > 0 && FieldDispatch(l, left[0]) == Advance(Field(next))
    requires var d := c.(place := Field(next), pending := Extend(c.pending, [left[0]]));
      HttpReady(d) ==> NameEnds(r, d, left[1..], tail, n)
    ensures NameEnds(r, c, left, tail, n)
  {
    hide HttpRun, HttpReady, NameEnds;
    OnwardOne(r, c, l, next, left[0], left[1..] + ([COLON] + tail));
    EndsLater(r, c, c.(place := Field(next), pending := Extend(c.pending, [left[0]])), [left[0]], left[1..], tail, n);
    assert left == [left[0]] + left[1..];
  }

  /** Or it gives up. */
  lemma Aside(r: Reply, c: Config, l: FieldLabel, left: seq<byte>, tail: seq<byte>)
    requires InName(c, l) && FieldNode(l).Peek? && NoColon(left)
    requires FieldDispatch(l, (left + [COLON])[0]) == Stay(Field(ClearHeaderState))
    ensures NameEnds(r, c, left, tail, Read(IsPlain(left), 0))
  {
    var d := c.(place := Field(ClearHeaderState));
    assert (left + ([COLON] + tail))[0] == (left + [COLON])[0];
    Slide(r, c, left + ([COLON] + tail), d);
    Cleared(r, d, left, tail);
  }

  /** An octet and the last part of a special name. */
  lemma WordBehind(r: Reply, c: Config, l: FieldLabel, next: FieldLabel, word: seq<byte>, n: nat, left: seq<byte>,
                   tail: seq<byte>)
    requires InName(c, l) && FieldNode(l).Peek? && |left| > 0 && NoColon(left[1..])
    requires FieldDispatch(l, left[0]) == Advance(Field(next)) && WordAt(next, word, StoreHeaderState(n))
    ensures NameEnds(r, c, left, tail, Read(GoesOn(left[1..], word), if IsWord(left[1..], word) then n else 0))
  {
    var d := c.(place := Field(next), pending := Extend(c.pending, [left[0]]));
    OnwardOne(r, c, l, next, left[0], []);
    Word(r, d, next, word, n, left[1..], tail);
    Onward(r, c, l, next, left, tail, Read(GoesOn(left[1..], word), if IsWord(left[1..], word) then n else 0));
  }

  // ---------------------------------------------------------------- whole names

  lemma OctetGoesOn(s: seq<byte>, x: byte, y: seq<byte>)
    requires 0x61 <= x <= 0x7a && |s| > 0
    ensures GoesOn(s, [x] + y) <==> if AsWord(s[0]) == x then GoesOn(s[1..], y) else IsPlain(s)
  {
    GoesOnSplit(s, [x], y);
  }

  /** A letter is an octet of a name. */
  lemma LetterPlain(s: seq<byte>)
    requires |s| > 0 && 0x61 <= AsWord(s[0]) <= 0x7a
    ensures IsPlain(s) <==> IsPlain(s[1..])
  {
    PlainHead(s);
  }

  /** One octet of a word and the rest of it. */
  lemma OctetWord(s: seq<byte>, x: byte, y: seq<byte>)
    ensures IsWord(s, [x] + y) <==> |s| > 0 && AsWord(s[0]) == x && IsWord(s[1..], y)
  {
    SplitWord(s, [x], y);
  }

  /** Behind "con". */
  function AfterCon(left: seq<byte>): nat {
    if IsWord(left, [0x6e] + ECTION) then 1 else if IsWord(left, [0x74] + ENT_LENGTH) then 2 else 0
  }

  /** The rest of a name behind "con", with a CR for the hyphen of content-length. */
  predicate ConGoesOn(left: seq<byte>) {
    GoesOn(left, [0x74] + ENT_LENGTH)
  }

  lemma ConAccepted(left: seq<byte>)
    ensures ConGoesOn(left) <==>
      if |left| > 0 && AsWord(left[0]) == 0x6e then GoesOn(left[1..], ECTION)
      else if |left| > 0 && AsWord(left[0]) == 0x74 then GoesOn(left[1..], ENT_LENGTH)
      else IsPlain(left)
  {
    if |left| > 0 {
      OctetGoesOn(left, 0x74, ENT_LENGTH);
      if AsWord(left[0]) == 0x6e {
        LetterPlain(left);
        PlainGoesOn(left[1..], ECTION);
      }
    }
  }

  lemma Con(r: Reply, c: Config, left: seq<byte>, tail: seq<byte>)
    requires InName(c, HeaderField2) && NoColon(left)
    ensures NameEnds(r, c, left, tail, Read(ConGoesOn(left), AfterCon(left)))
  {
    hide HttpRun, HttpReady, NameEnds;
    OctetWord(left, 0x6e, ECTION);
    OctetWord(left, 0x74, ENT_LENGTH);
    ConAccepted(left);
    if |left| == 0 {
      Aside(r, c, HeaderField2, left, tail);
    } else {
      FoldIsAsWord(left[0], 0x6e);
      FoldIsAsWord(left[0], 0x74);
      PlainTail(left, 1);
      Words();
      if AsWord(left[0]) == 0x6e {
        WordBehind(r, c, HeaderField2, HeaderField3, ECTION, 1, left, tail);
      } else if AsWord(left[0]) == 0x74 {
        WordBehind(r, c, HeaderField2, HeaderField4, ENT_LENGTH, 2, left, tail);
      } else {
        Aside(r, c, HeaderField2, left, tail);
      }
    }
  }

  /** Behind "c". */
  function AfterC(left: seq<byte>): nat {
    if BeginsWith(left, ON) then AfterCon(left[2..]) else 0
  }

  predicate CGoesOn(left: seq<byte>) {
    if BeginsWith(left, ON) then ConGoesOn(left[2..]) else IsPlain(left)
  }

  lemma C(r: Reply, c: Config, left: seq<byte>, tail: seq<byte>)
    requires InName(c, HeaderField1) && NoColon(left)
    ensures NameEnds(r, c, left, tail, Read(CGoesOn(left), AfterC(left)))
  {
    Words();
    if BeginsWith(left, ON) {
      PlainTail(left, 2);
      var d := c.(place := Field(HeaderField2), pending := Extend(c.pending, left[..2]));
      if HttpReady(d) {
        Con(r, d, left[2..], tail);
      }
      WordOn(r, c, HeaderField1, ON, HeaderField2, left, tail, Read(CGoesOn(left), AfterC(left)));
    } else {
      PlainGoesOn(left, ON);
      WordMiss(r, c, HeaderField1, ON, HeaderField2, left, tail);
    }
  }

  /** The state of a name by its first octet. */
  function StateByOctet(name: seq<byte>): nat {
    if |name| == 0 then 0
    else
      var x, rest := AsWord(name[0]), name[1..];
      if x == 0x63 then AfterC(rest)
      else if x == 0x70 then (if IsWord(rest, ROXY_CONNECTION) then 1 else 0)
      else if x == 0x74 then (if IsWord(rest, RANSFER_ENCODING) then 3 else 0)
      else if x == 0x75 then (if IsWord(rest, PGRADE) then 4 else 0)
      else 0
  }

  lemma Spelling()
    ensures CONNECTION == [0x63] + (ON + ([0x6e] + ECTION)) && CONTENT_LENGTH == [0x63] + (ON + ([0x74] + ENT_LENGTH))
    ensures PROXY_CONNECTION == [0x70] + ROXY_CONNECTION && TRANSFER_ENCODING == [0x74] + RANSFER_ENCODING
    ensures UPGRADE == [0x75] + PGRADE
  {
  }

  /** The octet-by-octet decision is the decision by whole names. */
  lemma StateByOctetIs(name: seq<byte>)
    ensures StateByOctet(name) == StateOf(name)
  {
    Spelling();
    OctetWord(name, 0x63, ON + ([0x6e] + ECTION));
    OctetWord(name, 0x63, ON + ([0x74] + ENT_LENGTH));
    OctetWord(name, 0x70, ROXY_CONNECTION);
    OctetWord(name, 0x74, RANSFER_ENCODING);
    OctetWord(name, 0x75, PGRADE);
    if |name| > 0 {
      SplitWord(name[1..], ON, [0x6e] + ECTION);
      SplitWord(name[1..], ON, [0x74] + ENT_LENGTH);
    }
  }

  /** Whether a name is accepted, by its first octet. */
  predicate AcceptedByOctet(name: seq<byte>) {
    |name| > 0 ==>
      var x, rest := AsWord(name[0]), name[1..];
      if x == 0x63 then CGoesOn(rest)
      else if x == 0x70 then GoesOn(rest, ROXY_CONNECTION)
      else if x == 0x74 then GoesOn(rest, RANSFER_ENCODING)
      else IsPlain(name)
  }

  /** Accepting octet by octet is accepting by whole names. */
  lemma AcceptedByOctetIs(name: seq<byte>)
    ensures AcceptedByOctet(name) <==> IsName(name)
  {
    Spelling();
    PlainGoesOn(name, CONTENT_LENGTH);
    PlainGoesOn(name, PROXY_CONNECTION);
    PlainGoesOn(name, TRANSFER_ENCODING);
    if |name| > 0 {
      OctetGoesOn(name, 0x63, ON + ([0x74] + ENT_LENGTH));
      OctetGoesOn(name, 0x70, ROXY_CONNECTION);
      OctetGoesOn(name, 0x74, RANSFER_ENCODING);
      GoesOnSplit(name[1..], ON, [0x74] + ENT_LENGTH);
    }
  }

  /** What the first block of a name makes of its first octet. */
  lemma FirstOctet(x: byte)
    ensures var y := AsWord(x);
      FieldDispatch(HeaderField, x) ==
        if y == 0x63 then Advance(Field(HeaderField1)) else if y == 0x70 then Advance(Field(HeaderField5))
        else if y == 0x74 then Advance(Field(HeaderField6)) else if y == 0x75 then Advance(Field(HeaderField7))
        else Stay(Field(ClearHeaderState))
  {
    FoldIsAsWord(x, 0x63);
    FoldIsAsWord(x, 0x70);
    FoldIsAsWord(x, 0x74);
    FoldIsAsWord(x, 0x75);
  }

  lemma NameC(r: Reply, c: Config, name: seq<byte>, tail: seq<byte>)
    requires InName(c, HeaderField) && NoColon(name) && |name| > 0 && AsWord(name[0]) == 0x63
    ensures NameEnds(r, c, name, tail, Read(CGoesOn(name[1..]), AfterC(name[1..])))
  {
    FirstOctet(name[0]);
    PlainTail(name, 1);
    var d := c.(place := Field(HeaderField1), pending := Extend(c.pending, [name[0]]));
    OnwardOne(r, c, HeaderField, HeaderField1, name[0], []);
    C(r, d, name[1..], tail);
    Onward(r, c, HeaderField, HeaderField1, name, tail, Read(CGoesOn(name[1..]), AfterC(name[1..])));
  }

  lemma NameByWord(r: Reply, c: Config, name: seq<byte>, tail: seq<byte>, y: byte)
    requires InName(c, HeaderField) && NoColon(name) && |name| > 0 && y == AsWord(name[0])
    requires y == 0x70 || y == 0x74 || y == 0x75
    ensures NameEnds(r, c, name, tail, Read(AcceptedByOctet(name), StateByOctet(name)))
  {
    hide HttpRun, HttpReady, NameEnds;
    FirstOctet(name[0]);
    PlainTail(name, 1);
    Words();
    LongWords();
    if y == 0x70 {
      WordBehind(r, c, HeaderField, HeaderField5, ROXY_CONNECTION, 1, name, tail);
    } else if y == 0x74 {
      WordBehind(r, c, HeaderField, HeaderField6, RANSFER_ENCODING, 3, name, tail);
    } else {
      LetterPlain(name);
      PlainGoesOn(name[1..], PGRADE);
      WordBehind(r, c, HeaderField, HeaderField7, PGRADE, 4, name, tail);
    }
  }

  lemma NameByOctet(r: Reply, c: Config, name: seq<byte>, tail: seq<byte>)
    requires InName(c, HeaderField) && NoColon(name)
    ensures NameEnds(r, c, name, tail, Read(AcceptedByOctet(name), StateByOctet(name)))
  {
    if |name| == 0 {
      Aside(r, c, HeaderField, name, tail);
    } else {
      var y := AsWord(name[0]);
      FirstOctet(name[0]);
      if y == 0x63 {
        NameC(r, c, name, tail);
      } else if y == 0x70 || y == 0x74 || y == 0x75 {
        NameByWord(r, c, name, tail, y);
      } else {
        Aside(r, c, HeaderField, name, tail);
      }
    }
  }

  /** The name's span begins. */
  lemma NameOpened(r: Reply, c: Config, input: seq<byte>)
    requires HttpReady(c) && c.place == Field(HeaderFieldStart) && |input| > 0 && input[0] != CR && input[0] != LF
    ensures var d := c.(place := Field(HeaderField), pending := Some(Pending(FieldSpan, [])));
      InName(d, HeaderField) && HttpRun(r, c, input) == HttpRun(r, d, input)
  {
    assert c.pending.None?;
    var s := c.(place := Field(SpanStartHeaderField));
    Slide(r, c, input, s);
    Slide(r, s, input, c.(place := Field(HeaderField), pending := Some(Pending(FieldSpan, []))));
  }

  /** From the start of a header line to the colon, for any octets: exactly the names are accepted, a name is reported
      whole, and its state is decided by the whole name. */
  lemma NameRead(r: Reply, c: Config, name: seq<byte>, tail: seq<byte>)
    requires HttpReady(c) && c.place == Field(HeaderFieldStart) && NoColon(name)
    requires |name| > 0 ==> name[0] != CR && name[0] != LF
    ensures var o := HttpRun(r, c, name + ([COLON] + tail));
      if IsName(name) then
        var d := Config(Value(HeaderValueDiscardWs), c.fields.(headerState := StateOf(name)), None,
                        c.out + [Span(FieldSpan, name)]);
        HttpReady(d) && o == HttpRun(r, d, tail)
      else BadToken(o)
  {
    NameOpened(r, c, name + ([COLON] + tail));
    var d := c.(place := Field(HeaderField), pending := Some(Pending(FieldSpan, [])));
    NameByOctet(r, d, name, tail);
    StateByOctetIs(name);
    AcceptedByOctetIs(name);
    assert [] + name == name;
  }

  /** A name has no colon and begins with an octet of a name. */
  lemma NameOctets(name: seq<byte>)
    requires IsName(name)
    ensures NoColon(name) && (|name| > 0 ==> IsFieldOctet(name[0]))
  {
    forall i: nat | i < |name| ensures name[i] != COLON {
      assert IsFieldOctet(name[i]) || name[i] == CR;
    }
    assert PROXY_CONNECTION[0] != HYPHEN && CONTENT_LENGTH[0] != HYPHEN && TRANSFER_ENCODING[0] != HYPHEN;
  }

  lemma PlainIsName(name: seq<byte>)
    requires IsPlain(name)
    ensures IsName(name)
  {
    PlainGoesOn(name, CONTENT_LENGTH);
  }

  /** The name with hyphens for its CRs. */
  function Hyphened(s: seq<byte>): seq<byte> {
    seq(|s|, i requires 0 <= i < |s| => if s[i] == CR then HYPHEN else s[i])
  }

  lemma HyphenedWord(s: seq<byte>, word: seq<byte>)
    ensures IsWord(Hyphened(s), word) <==> IsWord(s, word)
  {
    var t, n := Hyphened(s), |word|;
    assert forall i {:trigger s[i]} {:trigger t[i]} | 0 <= i < |s| ::
      AsWord(t[i]) == AsWord(s[i]) && (t[i] == SP <==> s[i] == SP);
    if n <= |s| {
      assert forall i {:trigger s[n..][i]} {:trigger t[n..][i]} | 0 <= i < |s| - n ::
        s[n..][i] == s[n + i] && t[n..][i] == t[n + i];
    }
  }

  /** A CR in a name counts as the hyphen it stands for: the name means what it means with hyphens. */
  lemma CrIsHyphen(name: seq<byte>)
    ensures StateOf(Hyphened(name)) == StateOf(name)
    ensures IsName(name) ==> IsName(Hyphened(name))
  {
    HyphenedWord(name, CONNECTION);
    HyphenedWord(name, PROXY_CONNECTION);
    HyphenedWord(name, CONTENT_LENGTH);
    HyphenedWord(name, TRANSFER_ENCODING);
    HyphenedWord(name, UPGRADE);
    if IsName(name) {
      PlainIsName(Hyphened(name));
    }
  }
}
