/** Comparing and cutting the text of requests. Strings are octets; what C code reads behind the end of one is NUL. */
module HttpText {
  import opened Bytes

  // "Sec-WebSocket-Key", "Host", "localhost", "localhost6"
  const WS_KEY: seq<byte> :=
    [0x53, 0x65, 0x63, 0x2d, 0x57, 0x65, 0x62, 0x53, 0x6f, 0x63, 0x6b, 0x65, 0x74, 0x2d, 0x4b, 0x65, 0x79]
  const HOST: seq<byte> := [0x48, 0x6f, 0x73, 0x74]
  const LOCALHOST: seq<byte> := [0x6c, 0x6f, 0x63, 0x61, 0x6c, 0x68, 0x6f, 0x73, 0x74]
  const LOCALHOST6: seq<byte> := LOCALHOST + [0x36]

  const OPEN_BRACKET: byte := 0x5b
  const CLOSE_BRACKET: byte := 0x5d

  predicate SameNoCase(x: seq<byte>, y: seq<byte>) {
    |x| == |y| && forall i | 0 <= i < |x| :: ToLower(x[i]) == ToLower(y[i])
  }

  predicate NoNul(s: seq<byte>) {
    forall i | 0 <= i < |s| :: s[i] != 0
  }

  /** The octet a C string has at `i`. */
  function At(s: seq<byte>, i: nat): byte {
    if i < |s| then s[i] else 0
  }

  /** The part of a string that C code sees. */
  function CString(s: seq<byte>): (r: seq<byte>)
    ensures NoNul(r) && r <= s && (|r| < |s| ==> s[|r|] == 0)
  {
    if |s| == 0 || s[0] == 0 then [] else [s[0]] + CString(s[1..])
  }

  // ---------------------------------------------------------------- comparing without case

  predicate BeginsNoCase(s: seq<byte>, name: seq<byte>) {
    |name| <= |s| && SameNoCase(s[..|name|], name)
  }

  /** The first `length` octets, or all up to a NUL both have, agree without case. */
  predicate EqualN(a: seq<byte>, b: seq<byte>, length: nat) {
    forall i | 0 <= i < length :: ToLower(At(a, i)) == ToLower(At(b, i)) || exists j | 0 <= j < i :: At(a, j) == 0
  }

  method StringEqualNoCaseN(a: seq<byte>, b: seq<byte>, length: nat) returns (equal: bool)
    ensures equal <==> EqualN(a, b, length)
  {
    var i := 0;
    while i < length
      invariant 0 <= i <= length
      invariant forall j | 0 <= j < i :: ToLower(At(a, j)) == ToLower(At(b, j)) && At(a, j) != 0
    {
      if ToLower(At(a, i)) != ToLower(At(b, i)) {
        return false;
      }
      if At(a, i) == 0 {
        return true;
      }
      i := i + 1;
    }
    return true;
  }

  /** Comparing as many octets as the name has finds the strings that begin with it. */
  lemma BeginsIsEqualN(s: seq<byte>, name: seq<byte>)
    requires NoNul(name)
    ensures EqualN(s, name, |name|) <==> BeginsNoCase(s, name)
  {
    if EqualN(s, name, |name|) {
      AllAgree(s, name, |name|);
    }
  }

  lemma {:induction false} AllAgree(s: seq<byte>, name: seq<byte>, k: nat)
    requires NoNul(name) && k <= |name| && EqualN(s, name, |name|)
    ensures k <= |s| && forall i | 0 <= i < k :: ToLower(s[i]) == ToLower(name[i]) && s[i] != 0
  {
    if k > 0 {
      AllAgree(s, name, k - 1);
      assert ToLower(At(s, k - 1)) == ToLower(At(name, k - 1));
    }
  }

  /** Octets before a NUL are those of the string. */
  lemma CStringAt(s: seq<byte>, i: nat)
    requires forall j | 0 <= j < i :: At(s, j) != 0
    ensures i <= |CString(s)| && (At(s, i) == 0 <==> i == |CString(s)|)
    ensures forall j | 0 <= j < |CString(s)| :: CString(s)[j] == At(s, j)
  {
    assert At(s, |CString(s)|) == 0;
  }

  method StringEqualNoCase(a: seq<byte>, b: seq<byte>) returns (equal: bool)
    ensures equal <==> SameNoCase(CString(a), CString(b))
  {
    hide CString, ToLower;
    var i := 0;
    while true
      invariant 0 <= i <= |a|
      invariant forall j | 0 <= j < i :: At(a, j) != 0 && At(b, j) != 0 && ToLower(At(a, j)) == ToLower(At(b, j))
      decreases |a| - i
    {
      CStringAt(a, i);
      CStringAt(b, i);
      if At(a, i) == 0 {
        return At(b, i) == 0;
      }
      if At(b, i) == 0 {
        return false;
      }
      if ToLower(At(a, i)) != ToLower(At(b, i)) {
        return false;
      }
      i := i + 1;
    }
  }

  /** Octets are alike without case exactly if they are the same, or one letter in both cases. */
  lemma SameLetter(a: byte, b: byte)
    ensures ToLower(a) == ToLower(b) <==> a == b || (a ^ b == 0x20 && 0x61 <= a | 0x20 <= 0x7a)
  {
  }

  // ---------------------------------------------------------------- hosts

  /** rfind, with -1 for npos. */
  method LastIndex(s: seq<byte>, c: byte) returns (at: int)
    ensures IsLast(s, c, at)
  {
    at := |s| - 1;
    while at >= 0 && s[at] != c
      invariant -1 <= at < |s| && forall i | at < i < |s| :: s[i] != c
    {
      at := at - 1;
    }
  }

  predicate IsLast(s: seq<byte>, c: byte, at: int) {
    -1 <= at < |s| && (at >= 0 ==> s[at] == c) && forall i | at < i < |s| :: s[i] != c
  }

  /** The colon before a port: the last one, unless brackets close behind it. */
  predicate PortAt(whole: seq<byte>, at: nat) {
    at < |whole| && whole[at] == COLON && forall i | at < i < |whole| :: whole[i] != COLON && whole[i] != CLOSE_BRACKET
  }

  ghost function WithoutPort(whole: seq<byte>): seq<byte> {
    if at: nat :| PortAt(whole, at) then whole[..at] else whole
  }

  method TrimPort(whole: seq<byte>) returns (host: seq<byte>)
    ensures host == WithoutPort(whole)
  {
    var colon := LastIndex(whole, COLON);
    if colon == -1 {
      return whole;
    }
    var bracket := LastIndex(whole, CLOSE_BRACKET);
    if bracket == -1 || colon > bracket {
      assert PortAt(whole, colon);
      return whole[..colon];
    }
    return whole;
  }

  predicate IsDigit(c: byte) {
    0x30 <= c <= 0x39
  }

  function Dots(s: seq<byte>): nat {
    if |s| == 0 then 0 else Dots(s[..|s| - 1]) + if s[|s| - 1] == DOT then 1 else 0
  }

  /** Something in brackets, or digits and exactly three dots. */
  predicate LooksLikeAddress(host: seq<byte>) {
    || (|host| >= 4 && host[0] == OPEN_BRACKET && host[|host| - 1] == CLOSE_BRACKET)
    || ((forall i | 0 <= i < |host| :: host[i] == DOT || 0x30 <= host[i] <= 0x39) && Dots(host) == 3)
  }

  method IsIPAddress(host: seq<byte>) returns (address: bool)
    ensures address <==> LooksLikeAddress(host)
  {
    if |host| >= 4 && host[0] == OPEN_BRACKET && host[|host| - 1] == CLOSE_BRACKET {
      return true;
    }
    var quads := 0;
    var i := 0;
    while i < |host|
      invariant 0 <= i <= |host| && quads == Dots(host[..i])
      invariant forall j | 0 <= j < i :: host[j] == DOT || 0x30 <= host[j] <= 0x39
    {
      assert host[..i + 1][..i] == host[..i];
      if host[i] == DOT {
        quads := quads + 1;
      } else if !IsDigit(host[i]) {
        return false;
      }
      i := i + 1;
    }
    assert host[..i] == host;
    return quads == 3;
  }

  /** The hosts an inspector answers to: no host, an address, or this machine. */
  ghost predicate AllowedHost(whole: seq<byte>) {
    var host := WithoutPort(whole);
    || host == [] || LooksLikeAddress(host)
    || SameNoCase(CString(host), LOCALHOST) || SameNoCase(CString(host), LOCALHOST6)
  }

  method IsAllowedHost(whole: seq<byte>) returns (allowed: bool)
    ensures allowed <==> AllowedHost(whole)
  {
    var host := TrimPort(whole);
    if host == [] {
      return true;
    }
    var address := IsIPAddress(host);
    if address {
      return true;
    }
    LocalNames();
    allowed := StringEqualNoCase(host, LOCALHOST);
    if !allowed {
      allowed := StringEqualNoCase(host, LOCALHOST6);
    }
  }

  lemma WholeString(s: seq<byte>)
    requires NoNul(s)
    ensures CString(s) == s
  {
    hide CString;
    assert |CString(s)| == |s|;
  }

  lemma LocalNames()
    ensures CString(LOCALHOST) == LOCALHOST && CString(LOCALHOST6) == LOCALHOST6
  {
    hide CString;
    WholeString(LOCALHOST);
    WholeString(LOCALHOST6);
  }
}
