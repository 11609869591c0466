/** Request targets: which octets are accepted between the method and the version. */
module LlhttpTargets {
  import opened Bytes
  import opened LlhttpTypes
  import opened LlhttpTables
  import opened Llparse
  import opened LlparseBulk
  import opened LlhttpProgram

  const SLASH: byte := 0x2f
  const ASTERISK: byte := 0x2a
  const QUESTION: byte := 0x3f
  const HASH: byte := 0x23
  const AT_SIGN: byte := 0x40

  // "://"
  const SCHEME_END: seq<byte> := [COLON, SLASH, SLASH]

  // ---------------------------------------------------------------- targets

  /** Path, query and fragment octets. */
  predicate IsTargetText(s: seq<byte>) {
    forall i {:trigger s[i]} | 0 <= i < |s| :: IsUrlOctet(s[i])
  }

  /** A target that begins with a slash, or the asterisk. */
  predicate IsPath(s: seq<byte>) {
    |s| > 0 && (s[0] == SLASH || s[0] == ASTERISK) && IsTargetText(s)
  }

  predicate IsAuthorityAt(s: seq<byte>, i: nat)
    requires i < |s|
  {
    IsServerOctet(s[i]) || (s[i] == AT_SIGN && (i + 1 < |s| ==> s[i + 1] != AT_SIGN))
  }

  /** Any number of at signs, but no two in a row. */
  predicate IsAuthority(s: seq<byte>) {
    forall i: nat | i < |s| :: IsAuthorityAt(s, i)
  }

  /** Where the path or the query behind an authority begins. */
  function PathAt(s: seq<byte>): (k: nat)
    ensures k <= |s| && (k < |s| ==> s[k] == SLASH || s[k] == QUESTION)
    ensures forall i {:trigger s[i]} | 0 <= i < k :: s[i] != SLASH && s[i] != QUESTION
  {
    if |s| == 0 || s[0] == SLASH || s[0] == QUESTION then 0 else 1 + PathAt(s[1..])
  }

  /** An authority, which may be empty, and a path, a query and a fragment, which may be missing. */
  predicate IsServer(s: seq<byte>) {
    IsAuthority(s[..PathAt(s)]) && IsTargetText(s[PathAt(s)..])
  }

  /** Letters in front of the first colon, which two slashes and an authority follow. */
  predicate IsScheme(s: seq<byte>) {
    if |s| > 0 && IsAlpha(s[0]) then IsScheme(s[1..])
    else |s| >= 3 && s[..3] == SCHEME_END && IsServer(s[3..])
  }

  predicate IsAbsolute(s: seq<byte>) {
    |s| > 0 && IsAlpha(s[0]) && IsScheme(s)
  }

  /** What a request with this method may ask for. */
  predicate IsTarget(verb: nat, s: seq<byte>) {
    |s| > 0 && if verb == HTTP_CONNECT then IsServer(s) else IsPath(s) || IsAbsolute(s)
  }

  /** The octets that end a target. */
  predicate EndsTarget(x: byte) {
    x == SP || x == CR || x == LF
  }

  predicate NoEnd(s: seq<byte>) {
    forall i {:trigger s[i]} | 0 <= i < |s| :: !EndsTarget(s[i])
  }

  // ---------------------------------------------------------------- which octets

  /** Letters and digits. */
  predicate IsAlphanumeric(c: byte) {
    0x30 <= c <= 0x39 || 0x41 <= c <= 0x5a || 0x61 <= c <= 0x7a
  }

  /** What a path refuses: the control octets but for tab and form feed, the space, the vertical bar and DEL. */
  lemma PathOctets(c: byte)
    ensures !IsUrlOctet(c) <==> (c < 0x20 && c != 0x09 && c != 0x0c) || c in [0x20, 0x7c, 0x7f]
  {
  }

  // the marks that sections 3.3 to 3.5 of RFC 3986 have in a path, a query and a fragment, and the percent sign
  const PATH_MARKS: seq<byte> := [
    0x2d, 0x2e, 0x5f, 0x7e, 0x21, 0x24, 0x26, 0x27, 0x28, 0x29, 0x2a, 0x2b, 0x2c, 0x3b, 0x3d, 0x3a, 0x40, 0x3f, 0x2f, 0x25]

  /** So everything is taken that the standard has there. */
  lemma PathTakes(c: byte)
    ensures IsAlphanumeric(c) || c in PATH_MARKS ==> IsUrlOctet(c)
  {
  }

  // the marks of section 3.2 of RFC 3986 but for the at sign, and the percent sign
  const SERVER_MARKS: seq<byte> := [
    0x2d, 0x2e, 0x5f, 0x7e, 0x21, 0x24, 0x26, 0x27, 0x28, 0x29, 0x2a, 0x2b, 0x2c, 0x3b, 0x3d, 0x3a, 0x5b, 0x5d, 0x25]

  /** An authority holds what the standard has there. */
  lemma ServerOctets(c: byte)
    ensures IsServerOctet(c) <==> IsAlphanumeric(c) || c in SERVER_MARKS
  {
  }

  // ---------------------------------------------------------------- octet by octet

  /** What may follow at a label. */
  predicate Follows(l: Label, s: seq<byte>) {
    l.Url? &&
    match l.url
    case UrlStart => IsPath(s) || IsAbsolute(s)
    case UrlSchema => IsScheme(s)
    case UrlSchemaDelim => |s| >= 2 && s[0] == SLASH && s[1] == SLASH && IsServer(s[2..])
    case UrlSchemaDelim1 => |s| >= 1 && s[0] == SLASH && IsServer(s[1..])
    case UrlServer => IsServer(s)
    case UrlServerWithAt => IsServer(s) && (|s| > 0 ==> s[0] != AT_SIGN)
    case _ => IsTargetText(s)
  }

  predicate IsUrlLabel(l: Label) {
    && l.Url?
    && (l.url.UrlStart? || l.url.UrlSchema? || l.url.UrlSchemaDelim? || l.url.UrlSchemaDelim1? || l.url.UrlServer?
        || l.url.UrlServerWithAt? || l.url.UrlPath? || l.url.UrlQuery? || l.url.UrlFragment?)
  }

  /** Where an octet leads. */
  function UrlNext(l: Label, x: byte): Option<Label>
    requires IsUrlLabel(l)
  {
    match l.url
    case UrlStart =>
      if x == SLASH || x == ASTERISK then Some(Url(UrlPath)) else if IsAlpha(x) then Some(Url(UrlSchema)) else None
    case UrlSchema => if x == COLON then Some(Url(UrlSchemaDelim)) else if IsAlpha(x) then Some(l) else None
    case UrlSchemaDelim => if x == SLASH then Some(Url(UrlSchemaDelim1)) else None
    case UrlSchemaDelim1 => if x == SLASH then Some(Url(UrlServer)) else None
    case UrlPath => UrlNextInText(l, x)
    case UrlQuery => UrlNextInText(l, x)
    case UrlFragment => UrlNextInText(l, x)
    case _ =>
      if IsServerOctet(x) then Some(Url(UrlServer))
      else if x == SLASH then Some(Url(UrlPath))
      else if x == QUESTION then Some(Url(UrlQuery))
      else if x == AT_SIGN && l == Url(UrlServer) then Some(Url(UrlServerWithAt))
      else None
  }

  /** A question mark ends the path, a hash the path or the query. */
  function UrlNextInText(l: Label, x: byte): Option<Label> {
    if x == HASH then Some(Url(UrlFragment))
    else if x == QUESTION && l == Url(UrlPath) then Some(Url(UrlQuery))
    else if IsUrlOctet(x) then Some(l)
    else None
  }

  /** Some octets take one block more. */
  function UrlVia(l: Label, x: byte): Label {
    match Dispatch(l, x)
    case Stay(m) => if m.Fail? then l else m
    case _ => l
  }

  /** The parser refuses the target. */
  predicate BadTarget(o: Outcome) {
    o.Stopped? && o.code == 7
  }

  lemma UrlDispatches(l: Label, x: byte)
    requires IsUrlLabel(l) && !EndsTarget(x)
    ensures UrlVia(l, x) != l ==> Dispatch(l, x) == Stay(UrlVia(l, x))
    ensures !Dispatch(UrlVia(l, x), x).EndAndAdvance?
    ensures match UrlNext(l, x)
            case Some(m) => IsUrlLabel(m) && Dispatch(UrlVia(l, x), x) == Advance(m)
            case None => var e := Dispatch(UrlVia(l, x), x); e.next.Fail? && e.next.code == 7
  {
  }

  /** In a target. */
  predicate InUrl(c: Config) {
    HttpReady(c) && IsUrlLabel(c.place) && c.pending.Some? && c.pending.value.kind == UrlSpan
  }

  lemma Fails(r: Reply, c: Config, input: seq<byte>)
    requires HttpReady(c) && c.place.Fail?
    ensures HttpRun(r, c, input) == Stopped(c.place.code, c.place.reason, c, input)
  {
    HttpOn(r, c, input);
  }

  predicate Peeks(l: Label) {
    LLHTTP.node(l).Peek?
  }

  lemma OctetMoves(c: Config, x: byte, input: seq<byte>, e: Edge)
    requires HttpReady(c) && Peeks(c.place) && |input| > 0 && input[0] == x
    requires Dispatch(c.place, x) == e && !e.EndAndAdvance?
    ensures var d := c.(place := e.next); var t := d.(pending := Extend(c.pending, [x]));
      if e.Advance? then HttpReady(t) && HttpRun(GO_ON, c, input) == HttpRun(GO_ON, t, input[1..])
      else HttpReady(d) && HttpRun(GO_ON, c, input) == HttpRun(GO_ON, d, input)
  {
    if e.Advance? {
      Take(GO_ON, c, input, c.(place := e.next, pending := Extend(c.pending, [x])));
    } else {
      Slide(GO_ON, c, input, c.(place := e.next));
    }
  }

  lemma UrlPeeks(l: Label, x: byte)
    requires IsUrlLabel(l) && !EndsTarget(x)
    ensures Peeks(l) && Peeks(UrlVia(l, x))
  {
  }

  /** One octet of a target. */
  lemma UrlOctet(c: Config, x: byte, input: seq<byte>)
    requires InUrl(c) && !EndsTarget(x) && |input| > 0 && input[0] == x
    ensures var o := HttpRun(GO_ON, c, input);
      match UrlNext(c.place, x)
      case Some(m) =>
        var d := c.(place := m, pending := Extend(c.pending, [x]));
        InUrl(d) && o == HttpRun(GO_ON, d, input[1..])
      case None => BadTarget(o)
  {
    hide HttpRun, HttpReady, Dispatch, UrlVia, UrlNext, Peeks;
    UrlDispatches(c.place, x);
    UrlPeeks(c.place, x);
    var v := c.(place := UrlVia(c.place, x));
    if v != c {
      OctetMoves(c, x, input, Stay(v.place));
    }
    var e := Dispatch(v.place, x);
    OctetMoves(v, x, input, e);
    if e.next.Fail? {
      if e.Advance? {
        Fails(GO_ON, v.(place := e.next, pending := Extend(c.pending, [x])), input[1..]);
      } else {
        Fails(GO_ON, v.(place := e.next), input);
      }
    }
  }

  // ---------------------------------------------------------------- what follows is what is accepted

  lemma TextOn(s: seq<byte>)
    requires |s| > 0
    ensures IsTargetText(s) <==> IsUrlOctet(s[0]) && IsTargetText(s[1..])
  {
    var t := s[1..];
    assert forall i {:trigger t[i]} | 0 <= i < |t| :: t[i] == s[i + 1];
    assert forall i {:trigger s[i]} | 0 < i < |s| :: s[i] == t[i - 1];
  }

  lemma AuthorityOn(s: seq<byte>)
    requires |s| > 0
    ensures IsAuthority(s) <==> IsAuthorityAt(s, 0) && IsAuthority(s[1..])
  {
    var t := s[1..];
    assert forall i: nat | i < |t| :: IsAuthorityAt(t, i) <==> IsAuthorityAt(s, i + 1);
    if IsAuthorityAt(s, 0) && IsAuthority(t) {
      forall i: nat | i < |s| ensures IsAuthorityAt(s, i) {
        assert i > 0 ==> IsAuthorityAt(t, i - 1);
      }
    }
  }

  lemma ServerOn(s: seq<byte>)
    requires |s| > 0
    ensures IsServer(s) <==>
      if s[0] == SLASH || s[0] == QUESTION then IsTargetText(s[1..])
      else IsServer(s[1..]) && (IsServerOctet(s[0]) || (s[0] == AT_SIGN && (|s| > 1 ==> s[1] != AT_SIGN)))
  {
    var k := PathAt(s);
    if s[0] == SLASH || s[0] == QUESTION {
      TextOn(s);
      assert s[0..] == s;
    } else {
      var t := s[1..];
      assert k == 1 + PathAt(t) && s[k..] == t[PathAt(t)..] && s[..k][1..] == t[..PathAt(t)];
      AuthorityOn(s[..k]);
      assert |s| > 1 && s[1] == AT_SIGN ==> k > 1;
    }
  }

  lemma SchemeOn(s: seq<byte>)
    requires |s| > 0
    ensures IsScheme(s) <==>
      if s[0] == COLON then Follows(Url(UrlSchemaDelim), s[1..]) else IsAlpha(s[0]) && IsScheme(s[1..])
  {
    if |s| >= 3 {
      assert s[..3] == [s[0], s[1], s[2]] && s[3..] == s[1..][2..];
    }
  }

  lemma FollowsOn(l: Label, s: seq<byte>)
    requires IsUrlLabel(l) && |s| > 0 && !EndsTarget(s[0])
    ensures Follows(l, s) <==> UrlNext(l, s[0]).Some? && Follows(UrlNext(l, s[0]).value, s[1..])
  {
    hide IsTargetText, IsServer, IsScheme, IsServerOctet, IsUrlOctet, IsAlpha;
    TextOn(s);
    ServerOn(s);
    SchemeOn(s);
    OctetKinds(s[0]);
    assert |s| >= 2 ==> s[1..][1..] == s[2..];
  }

  lemma OctetKinds(x: byte)
    ensures x == SLASH || x == QUESTION || x == AT_SIGN ==> !IsServerOctet(x) && !IsAlpha(x)
    ensures x == SLASH || x == QUESTION || x == HASH || x == ASTERISK ==> IsUrlOctet(x) && !IsAlpha(x)
    ensures x == COLON ==> !IsAlpha(x)
  {
  }

  predicate MayEnd(l: UrlLabel) {
    l.UrlServer? || l.UrlServerWithAt? || l.UrlPath? || l.UrlQuery? || l.UrlFragment?
  }

  lemma FollowsEnd(l: Label)
    requires IsUrlLabel(l)
    ensures Follows(l, []) <==> MayEnd(l.url)
  {
  }

  // ---------------------------------------------------------------- whole targets

  lemma SpaceEnds(c: Config, tail: seq<byte>)
    requires InUrl(c) && Follows(c.place, [])
    ensures var d := Close(c, UrlSpan, Line(ReqHttpStart));
      HttpReady(d) && HttpRun(GO_ON, c, [SP] + tail) == HttpRun(GO_ON, d, tail)
  {
    hide HttpRun, HttpReady;
    FollowsEnd(c.place);
    SpaceFound(c, [SP] + tail);
    SpaceTaken(c.(place := Url(SpanEndUrlHttp)), tail);
  }

  lemma SpaceFound(c: Config, input: seq<byte>)
    requires InUrl(c) && MayEnd(c.place.url)
    requires |input| > 0 && input[0] == SP
    ensures var d := c.(place := Url(SpanEndUrlHttp));
      HttpReady(d) && HttpRun(GO_ON, c, input) == HttpRun(GO_ON, d, input)
  {
    var d := c.(place := Url(SpanEndUrlHttp));
    if c.place == Url(UrlPath) {
      Slide(GO_ON, c, input, c.(place := Url(UrlQueryOrFragment)));
      Slide(GO_ON, c.(place := Url(UrlQueryOrFragment)), input, d);
    } else {
      Slide(GO_ON, c, input, d);
    }
  }

  lemma SpaceTaken(c: Config, tail: seq<byte>)
    requires HttpReady(c) && c.place == Url(SpanEndUrlHttp) && c.pending.Some? && c.pending.value.kind == UrlSpan
    ensures var d := Close(c, UrlSpan, Line(ReqHttpStart));
      HttpReady(d) && HttpRun(GO_ON, c, [SP] + tail) == HttpRun(GO_ON, d, tail)
  {
    var input := [SP] + tail;
    assert input[1..] == tail;
    var e := Close(c, UrlSpan, Url(UrlSkipToHttp));
    Slide(GO_ON, c, input, e);
    Take(GO_ON, e, input, e.(place := Line(ReqHttpStart)));
  }

  /** A space in front of the colon or the slashes of a scheme. */
  lemma SpaceRefused(c: Config, tail: seq<byte>)
    requires InUrl(c) && !Follows(c.place, [])
    ensures BadTarget(HttpRun(GO_ON, c, [SP] + tail))
  {
    hide HttpRun, HttpReady;
    FollowsEnd(c.place);
    SpaceIsBad(c.place);
    var e := Dispatch(c.place, SP);
    var input := [SP] + tail;
    OctetMoves(c, SP, input, e);
    if e.Advance? {
      Fails(GO_ON, c.(place := e.next, pending := Extend(c.pending, [SP])), input[1..]);
    } else {
      Fails(GO_ON, c.(place := e.next), input);
    }
  }

  lemma SpaceIsBad(l: Label)
    requires l == Url(UrlStart) || l == Url(UrlSchema) || l == Url(UrlSchemaDelim) || l == Url(UrlSchemaDelim1)
    ensures var e := Dispatch(l, SP); Peeks(l) && !e.EndAndAdvance? && e.next.Fail? && e.next.code == 7
  {
  }

  /** From within a target to behind the space that ends it. */
  ghost predicate TargetEnds(c: Config, s: seq<byte>, tail: seq<byte>, accepted: bool) {
    var o := HttpRun(GO_ON, c, s + ([SP] + tail));
    if accepted then
      var d := Close(c.(pending := Extend(c.pending, s)), UrlSpan, Line(ReqHttpStart));
      HttpReady(d) && o == HttpRun(GO_ON, d, tail)
    else BadTarget(o)
  }

  lemma NoEndTail(s: seq<byte>)
    requires |s| > 0 && NoEnd(s)
    ensures !EndsTarget(s[0]) && NoEnd(s[1..])
  {
    var t := s[1..];
    assert forall i {:trigger t[i]} | 0 <= i < |t| :: t[i] == s[i + 1];
  }

  lemma {:induction false} TargetRest(c: Config, s: seq<byte>, tail: seq<byte>)
    requires InUrl(c) && NoEnd(s)
    ensures TargetEnds(c, s, tail, Follows(c.place, s))
    decreases |s|
  {
    hide HttpRun, HttpReady;
    if |s| == 0 {
      assert s + ([SP] + tail) == [SP] + tail;
      ExtendNothing(c.pending);
      if Follows(c.place, []) {
        SpaceEnds(c, tail);
      } else {
        SpaceRefused(c, tail);
      }
    } else {
      var x, more := s[0], s[1..];
      var input := s + ([SP] + tail);
      assert input[1..] == more + ([SP] + tail) && s == [x] + more;
      NoEndTail(s);
      FollowsOn(c.place, s);
      UrlOctet(c, x, input);
      if UrlNext(c.place, x).Some? {
        var d := c.(place := UrlNext(c.place, x).value, pending := Extend(c.pending, [x]));
        TargetRest(d, more, tail);
        ExtendTwice(c.pending, [x], more);
      }
    }
  }

  function FirstInUrl(verb: nat): Label {
    if verb == HTTP_CONNECT then Url(UrlServer) else Url(UrlStart)
  }

  lemma SpaceBefore(c: Config, input: seq<byte>)
    requires HttpReady(c) && c.place == Begin(ReqFirstSpaceBeforeUrl) && |input| > 0 && input[0] != SP
    ensures var d := c.(place := Begin(IsEqualMethod));
      HttpReady(d) && HttpRun(GO_ON, c, [SP] + input) == HttpRun(GO_ON, d, input)
  {
    assert c.pending.None? && ([SP] + input)[1..] == input;
    Take(GO_ON, c, [SP] + input, c.(place := Begin(ReqSpacesBeforeUrl)));
    Slide(GO_ON, c.(place := Begin(ReqSpacesBeforeUrl)), input, c.(place := Begin(IsEqualMethod)));
  }

  lemma SpanOpened(c: Config, input: seq<byte>)
    requires HttpReady(c) && c.place == Begin(IsEqualMethod) && |input| > 0
    ensures var d := c.(place := FirstInUrl(c.fields.verb), pending := Some(Pending(UrlSpan, [])));
      InUrl(d) && HttpRun(GO_ON, c, input) == HttpRun(GO_ON, d, input)
  {
    assert c.pending.None?;
    var e := c.(place := Url(if c.fields.verb == HTTP_CONNECT then SpanStartUrl else SpanStartUrl1));
    Slide(GO_ON, c, input, e);
    Slide(GO_ON, e, input, c.(place := FirstInUrl(c.fields.verb), pending := Some(Pending(UrlSpan, []))));
  }

  lemma TargetOpened(c: Config, input: seq<byte>)
    requires HttpReady(c) && c.place == Begin(ReqFirstSpaceBeforeUrl) && |input| > 0 && input[0] != SP
    ensures var d := c.(place := FirstInUrl(c.fields.verb), pending := Some(Pending(UrlSpan, [])));
      InUrl(d) && HttpRun(GO_ON, c, [SP] + input) == HttpRun(GO_ON, d, input)
  {
    hide HttpRun, HttpReady;
    SpaceBefore(c, input);
    SpanOpened(c.(place := Begin(IsEqualMethod)), input);
  }

  /** The target of a request, with a space on either side, whatever its octets: exactly the targets that fit the method
      are reported, and all others are an error. */
  lemma TargetRead(c: Config, s: seq<byte>, tail: seq<byte>)
    requires HttpReady(c) && c.place == Begin(ReqFirstSpaceBeforeUrl) && |s| > 0 && NoEnd(s)
    ensures var o := HttpRun(GO_ON, c, [SP] + (s + ([SP] + tail)));
      if IsTarget(c.fields.verb, s) then
        var d := Config(Line(ReqHttpStart), c.fields, None, c.out + [Span(UrlSpan, s)]);
        HttpReady(d) && o == HttpRun(GO_ON, d, tail)
      else BadTarget(o)
  {
    hide HttpRun, HttpReady;
    assert !EndsTarget(s[0]);
    TargetOpened(c, s + ([SP] + tail));
    var d := c.(place := FirstInUrl(c.fields.verb), pending := Some(Pending(UrlSpan, [])));
    TargetRest(d, s, tail);
    assert [] + s == s;
  }

  lemma {:induction false} SchemeNoEnd(s: seq<byte>)
    requires IsScheme(s)
    ensures NoEnd(s)
    decreases |s|
  {
    if |s| > 0 && IsAlpha(s[0]) {
      SchemeNoEnd(s[1..]);
      assert forall i {:trigger s[i]} | 0 < i < |s| :: s[i] == s[1..][i - 1];
    } else {
      var t := s[3..];
      ServerNoEnd(t);
      assert s == s[..3] + t;
    }
  }

  lemma ServerNoEnd(s: seq<byte>)
    requires IsServer(s)
    ensures NoEnd(s)
  {
    var k := PathAt(s);
    var a, b := s[..k], s[k..];
    forall i {:trigger s[i]} | 0 <= i < |s| ensures !EndsTarget(s[i]) {
      if i < k {
        assert IsAuthorityAt(a, i) && a[i] == s[i];
      } else {
        assert IsUrlOctet(b[i - k]) && b[i - k] == s[i];
      }
    }
  }

  /** No target holds an octet that would end it. */
  lemma TargetNoEnd(verb: nat, s: seq<byte>)
    requires IsTarget(verb, s)
    ensures NoEnd(s)
  {
    if verb == HTTP_CONNECT {
      ServerNoEnd(s);
    } else if IsAbsolute(s) {
      SchemeNoEnd(s);
    }
  }

  // ---------------------------------------------------------------- an error in the middle of a target

  /** In a path, a query or a fragment. */
  predicate InText(l: Label) {
    l == Url(UrlPath) || l == Url(UrlQuery) || l == Url(UrlFragment)
  }

  lemma TextOctet(l: Label, x: byte)
    requires InText(l) && IsUrlOctet(x)
    ensures !EndsTarget(x) && UrlNext(l, x).Some? && InText(UrlNext(l, x).value)
  {
  }

  /** Part of a target. */
  lemma {:induction false} TextRead(c: Config, s: seq<byte>, tail: seq<byte>) returns (l: Label)
    requires InUrl(c) && InText(c.place) && IsTargetText(s)
    ensures var d := c.(place := l, pending := Extend(c.pending, s));
      InUrl(d) && InText(l) && HttpRun(GO_ON, c, s + tail) == HttpRun(GO_ON, d, tail)
    decreases |s|
  {
    hide HttpRun, HttpReady, UrlNext;
    if |s| == 0 {
      l := c.place;
      assert s + tail == tail;
      ExtendNothing(c.pending);
    } else {
      var x, more := s[0], s[1..];
      assert (s + tail)[1..] == more + tail && s == [x] + more;
      TextOn(s);
      TextOctet(c.place, x);
      UrlOctet(c, x, s + tail);
      l := TextRead(c.(place := UrlNext(c.place, x).value, pending := Extend(c.pending, [x])), more, tail);
      ExtendTwice(c.pending, [x], more);
    }
  }

  /** The beginning of a target. */
  lemma PathRead(c: Config, s: seq<byte>, tail: seq<byte>) returns (l: Label)
    requires HttpReady(c) && c.place == Begin(ReqFirstSpaceBeforeUrl) && c.fields.verb != HTTP_CONNECT && IsPath(s)
    ensures var d := c.(place := l, pending := Some(Pending(UrlSpan, s)));
      InUrl(d) && InText(l) && HttpRun(GO_ON, c, [SP] + (s + tail)) == HttpRun(GO_ON, d, tail)
  {
    hide HttpRun, HttpReady;
    var x, more := s[0], s[1..];
    var input := s + tail;
    TextOn(s);
    assert input[1..] == more + tail && [] + [x] == [x] && [x] + more == s;
    TargetOpened(c, input);
    UrlOctet(c.(place := Url(UrlStart), pending := Some(Pending(UrlSpan, []))), x, input);
    l := TextRead(c.(place := Url(UrlPath), pending := Some(Pending(UrlSpan, [x]))), more, tail);
  }

  /** An octet that is none of a target, and does not end one. */
  predicate OffTarget(x: byte) {
    !IsUrlOctet(x) && !EndsTarget(x)
  }

  lemma OffTargetOn(l: Label, x: byte)
    requires InText(l) && OffTarget(x)
    ensures IsUrlLabel(l) && UrlNext(l, x).None? && Dispatch(UrlVia(l, x), x).Stay?
  {
  }

  /** It stops the parser, the target still open. */
  lemma TargetRefused(c: Config, x: byte, tail: seq<byte>)
    requires InUrl(c) && InText(c.place) && OffTarget(x)
    ensures var o := HttpRun(GO_ON, c, [x] + tail);
      o.Stopped? && o.code == 7 && o.c.pending == c.pending && o.c.out == c.out && o.rest == [x] + tail
  {
    hide HttpRun, HttpReady, Dispatch, UrlVia, UrlNext, Peeks;
    var input := [x] + tail;
    OffTargetOn(c.place, x);
    UrlDispatches(c.place, x);
    UrlPeeks(c.place, x);
    var v := c.(place := UrlVia(c.place, x));
    if v != c {
      OctetMoves(c, x, input, Stay(v.place));
    }
    var e := Dispatch(v.place, x);
    OctetMoves(v, x, input, e);
    Fails(GO_ON, v.(place := e.next), input);
  }
}
