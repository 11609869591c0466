/** Numbers in network byte order. */
module BigEndian {
  import opened Bytes

  lemma NextOctet(b: byte)
    requires b != 255
    ensures (b + 1) as nat == b as nat + 1
  {
  }

  lemma SameOrder(a: byte, b: byte)
    ensures a <= b <==> a as nat <= b as nat
  {
  }

  function Octet(n: nat): (b: byte)
    requires n < 256
    ensures b as nat == n
  {
    if n == 0 then 0 else NextOctet(Octet(n - 1)); Octet(n - 1) + 1
  }

  lemma OctetBack(b: byte)
    ensures b as nat < 256 && Octet(b as nat) == b
  {
    SameOrder(b, Octet(b as nat));
    SameOrder(Octet(b as nat), b);
  }

  /** 256^k. */
  function Power(k: nat): (p: nat)
    ensures p >= 1
  {
    if k == 0 then 1 else 256 * Power(k - 1)
  }

  /** The number some octets spell. */
  function Number(s: seq<byte>): nat {
    if |s| == 0 then 0 else 256 * Number(s[..|s| - 1]) + s[|s| - 1] as nat
  }

  /** The last `k` octets of a number. */
  function Octets(n: nat, k: nat): (s: seq<byte>)
    ensures |s| == k
  {
    if k == 0 then [] else Octets(n / 256, k - 1) + [Octet(n % 256)]
  }

  lemma {:induction false} NumberBack(n: nat, k: nat)
    requires n < Power(k)
    ensures Number(Octets(n, k)) == n
    decreases k
  {
    if k > 0 {
      NumberBack(n / 256, k - 1);
      var s := Octets(n, k);
      assert s[..|s| - 1] == Octets(n / 256, k - 1);
    }
  }

  lemma Digit(n: nat, d: nat)
    requires d < 256
    ensures (256 * n + d) / 256 == n && (256 * n + d) % 256 == d
  {
  }

  lemma OneMore(init: seq<byte>, last: byte)
    ensures Number(init + [last]) == 256 * Number(init) + last as nat
  {
    var s := init + [last];
    assert s[..|s| - 1] == init;
  }

  lemma OctetsMore(n: nat, k: nat)
    ensures Octets(n, k + 1) == Octets(n / 256, k) + [Octet(n % 256)] && Power(k + 1) == 256 * Power(k)
  {
  }

  lemma {:induction false} OctetsBack(s: seq<byte>)
    ensures Number(s) < Power(|s|) && Octets(Number(s), |s|) == s
    decreases |s|
  {
    if |s| > 0 {
      hide Octet, Octets, Number, Power;
      var init, last := s[..|s| - 1], s[|s| - 1];
      assert s == init + [last];
      OctetsBack(init);
      OctetBack(last);
      OneMore(init, last);
      Digit(Number(init), last as nat);
      OctetsMore(Number(s), |init|);
    }
  }

  /** Two octets and eight, the sizes in use. */
  lemma Powers()
    ensures Power(0) == 1 && Power(2) == 0x1_0000 && Power(8) == 0x1_0000_0000_0000_0000
  {
  }
}
