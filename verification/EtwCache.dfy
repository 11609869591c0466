/** The per-event enable bits a provider caches, so that writing an event need not look at levels and keywords. */
module EtwCache {
  import opened Bytes

  const DISABLE_PROVIDER := 0
  const ENABLE_PROVIDER := 1

  // ---------------------------------------------------------------- one bit of a word

  /** 1 << k. */
  function Bit(k: nat): bv32 {
    if k == 0 then 1 else Bit(k - 1) << 1
  }

  lemma ShiftedApart(a: bv32, b: bv32)
    requires a & b == 0
    ensures (a << 1) & (b << 1) == 0
  {
  }

  lemma {:induction false} Apart(j: nat, k: nat)
    requires j < k
    ensures Bit(j) & Bit(k) == 0
    decreases j
  {
    if j > 0 {
      Apart(j - 1, k - 1);
      ShiftedApart(Bit(j - 1), Bit(k - 1));
    }
  }

  lemma {:induction false} NotLost(k: nat, n: nat)
    requires Bit(k) == 0 && k <= n
    ensures Bit(n) == 0
    decreases n
  {
    if k < n {
      NotLost(k, n - 1);
    }
  }

  lemma AllBits()
    ensures Bit(0) == 0x1 && Bit(1) == 0x2 && Bit(2) == 0x4 && Bit(3) == 0x8
    ensures Bit(4) == 0x10 && Bit(5) == 0x20 && Bit(6) == 0x40 && Bit(7) == 0x80
    ensures Bit(8) == 0x100 && Bit(9) == 0x200 && Bit(10) == 0x400 && Bit(11) == 0x800
    ensures Bit(12) == 0x1000 && Bit(13) == 0x2000 && Bit(14) == 0x4000 && Bit(15) == 0x8000
    ensures Bit(16) == 0x1_0000 && Bit(17) == 0x2_0000 && Bit(18) == 0x4_0000 && Bit(19) == 0x8_0000
    ensures Bit(20) == 0x10_0000 && Bit(21) == 0x20_0000 && Bit(22) == 0x40_0000 && Bit(23) == 0x80_0000
    ensures Bit(24) == 0x100_0000 && Bit(25) == 0x200_0000 && Bit(26) == 0x400_0000 && Bit(27) == 0x800_0000
    ensures Bit(28) == 0x1000_0000 && Bit(29) == 0x2000_0000 && Bit(30) == 0x4000_0000 && Bit(31) == 0x8000_0000
  {
  }

  lemma NotZero(k: nat)
    requires k < 32
    ensures Bit(k) != 0
  {
    AllBits();
    if Bit(k) == 0 {
      NotLost(k, 31);
    }
  }

  function Join(x: bv32, y: bv32): bv32 {
    x | y
  }

  function Meet(x: bv32, y: bv32): bv32 {
    x & y
  }

  function Rest(x: bv32): bv32 {
    !x
  }

  function Set(w: bv32, b: bv32): bv32 {
    Join(w, b)
  }

  function Clear(w: bv32, b: bv32): bv32 {
    Meet(w, Rest(b))
  }

  predicate Has(w: bv32, b: bv32) {
    Meet(w, b) != 0
  }

  lemma JoinMeet(x: bv32, y: bv32, z: bv32)
    ensures Meet(Join(x, y), z) == Join(Meet(x, z), Meet(y, z))
  {
  }

  lemma JoinZero(x: bv32)
    ensures Join(x, 0) == x && Join(0, x) == x
  {
  }

  lemma Absorbs(x: bv32, y: bv32)
    ensures Meet(Join(x, y), y) == y
  {
  }

  /** A word is its part within a mask and its part without. */
  lemma Within(x: bv32, mask: bv32)
    ensures x == Join(Meet(mask, x), Meet(Rest(mask), x)) && Meet(Meet(x, Rest(mask)), mask) == 0
  {
  }

  lemma MeetLater(x: bv32, y: bv32, z: bv32)
    ensures Meet(Meet(x, y), z) == Meet(x, Meet(y, z))
  {
  }

  lemma HasSet(w: bv32, b: bv32)
    requires b != 0
    ensures Has(Set(w, b), b)
  {
    hide Meet, Join;
    Absorbs(w, b);
  }

  lemma HasClear(w: bv32, b: bv32)
    ensures !Has(Clear(w, b), b)
  {
    hide Meet, Join, Rest;
    Within(w, b);
  }

  lemma OthersSet(w: bv32, b: bv32, c: bv32)
    requires Meet(b, c) == 0
    ensures Has(Set(w, b), c) <==> Has(w, c)
  {
    hide Meet, Join;
    JoinMeet(w, b, c);
    JoinZero(Meet(w, c));
  }

  lemma OthersClear(w: bv32, b: bv32, c: bv32)
    requires Meet(b, c) == 0
    ensures Has(Clear(w, b), c) <==> Has(w, c)
  {
    hide Meet, Join, Rest;
    Within(c, b);
    JoinZero(Meet(Rest(b), c));
    MeetLater(w, Rest(b), c);
  }

  // ---------------------------------------------------------------- the cache

  /** What an event was declared with. */
  datatype Event = Event(level: bv8, keyword: bv64)

  /** The settings a control callback brings. */
  datatype Settings = Settings(enabled: bool, level: bv8, matchAny: bv64, matchAll: bv64)

  predicate LevelEnabled(s: Settings, level: bv8) {
    level <= s.level || s.level == 0
  }

  predicate KeywordEnabled(s: Settings, keyword: bv64) {
    keyword == 0 || (Both(keyword, s.matchAny) != 0 && Both(keyword, s.matchAll) == s.matchAll)
  }

  /** McGenLevelKeywordEnabled. */
  predicate LevelKeywordEnabled(s: Settings, e: Event) {
    LevelEnabled(s, e.level) && KeywordEnabled(s, e.keyword)
  }

  /** What the bit of an event caches. */
  predicate EventEnabled(s: Settings, e: Event) {
    s.enabled && LevelKeywordEnabled(s, e)
  }

  // ---------------------------------------------------------------- what the settings mean

  function Half(x: bv64): bv64 {
    x >> 1
  }

  predicate Odd(x: bv64) {
    x & 1 == 1
  }

  /** Bit `k` of a keyword. */
  predicate In(x: bv64, k: nat) {
    if k == 0 then Odd(x) else In(Half(x), k - 1)
  }

  /** A word without its last `k` bits. */
  function Behind(x: bv64, k: nat): bv64 {
    if k == 0 then x else Behind(Half(x), k - 1)
  }

  lemma {:induction false} BehindTwice(x: bv64, j: nat, k: nat)
    ensures Behind(Behind(x, j), k) == Behind(x, j + k)
    decreases j
  {
    if j > 0 {
      BehindTwice(Half(x), j - 1, k);
    }
  }

  lemma BehindFour(x: bv64)
    ensures Behind(x, 4) == x >> 4
  {
    var y := Half(Half(x));
    assert Behind(x, 4) == Behind(Half(x), 3) == Behind(y, 2) == Behind(Half(y), 1) == Behind(Half(Half(y)), 0);
  }

  lemma BehindEight(x: bv64)
    ensures Behind(x, 8) == x >> 8
  {
    BehindTwice(x, 4, 4);
    BehindFour(x);
    BehindFour(x >> 4);
  }

  lemma NothingBehind(x: bv64)
    ensures Behind(x, 64) == 0
  {
    var y := Behind(Behind(x, 8), 8);
    BehindEight(x);
    BehindEight(Behind(x, 8));
    var z := Behind(Behind(y, 8), 8);
    BehindEight(y);
    BehindEight(Behind(y, 8));
    var u := Behind(Behind(z, 8), 8);
    BehindEight(z);
    BehindEight(Behind(z, 8));
    var v := Behind(Behind(u, 8), 8);
    BehindEight(u);
    BehindEight(Behind(u, 8));
    Shifted(x);
    hide Behind;
    BehindTwice(x, 8, 8);
    BehindTwice(x, 16, 8);
    BehindTwice(x, 24, 8);
    BehindTwice(x, 32, 8);
    BehindTwice(x, 40, 8);
    BehindTwice(x, 48, 8);
    BehindTwice(x, 56, 8);
  }

  lemma Shifted(x: bv64)
    ensures (((((((x >> 8) >> 8) >> 8) >> 8) >> 8) >> 8) >> 8) >> 8 == 0
  {
  }

  lemma OddOrMore(x: bv64)
    requires !Odd(x) && Half(x) == 0
    ensures x == 0
  {
  }

  lemma {:induction false} NoneIn(x: bv64, n: nat)
    requires Behind(x, n) == 0 && forall k: nat | k < n :: !In(x, k)
    ensures x == 0
    decreases n
  {
    if n > 0 {
      assert !In(x, 0);
      forall k: nat | k < n - 1 ensures !In(Half(x), k) {
        assert !In(x, k + 1);
      }
      NoneIn(Half(x), n - 1);
      OddOrMore(x);
    }
  }

  lemma {:induction false} NotIn(k: nat)
    ensures !In(0, k)
    decreases k
  {
    assert Half(0) == 0 && !Odd(0);
    if k > 0 {
      NotIn(k - 1);
    }
  }

  ghost predicate HasBit(x: bv64) {
    exists k: nat :: k < 64 && In(x, k)
  }

  /** A word that is not zero has a bit. */
  lemma SomeIn(x: bv64)
    ensures x != 0 <==> HasBit(x)
  {
    if x == 0 {
      forall k: nat ensures !In(x, k) {
        NotIn(k);
      }
    } else if !HasBit(x) {
      NothingBehind(x);
      NoneIn(x, 64);
    }
  }

  function Both(x: bv64, y: bv64): bv64 {
    x & y
  }

  function Either(x: bv64, y: bv64): bv64 {
    x ^ y
  }

  lemma HalfBoth(x: bv64, y: bv64)
    ensures Half(Both(x, y)) == Both(Half(x), Half(y)) && (Odd(Both(x, y)) <==> Odd(x) && Odd(y))
    ensures Half(Either(x, y)) == Either(Half(x), Half(y)) && (Odd(Either(x, y)) <==> Odd(x) != Odd(y))
  {
  }

  lemma {:induction false} InBoth(x: bv64, y: bv64, k: nat)
    ensures In(Both(x, y), k) <==> In(x, k) && In(y, k)
    ensures In(Either(x, y), k) <==> In(x, k) != In(y, k)
    decreases k
  {
    hide Half, Odd, Both, Either;
    HalfBoth(x, y);
    if k > 0 {
      InBoth(Half(x), Half(y), k - 1);
    }
  }

  lemma Differ(x: bv64, y: bv64)
    ensures Either(x, y) == 0 <==> x == y
  {
  }

  /** Some bit is in both. */
  ghost predicate Share(x: bv64, y: bv64) {
    exists k: nat :: k < 64 && In(x, k) && In(y, k)
  }

  /** Every bit of `y` is in `x`. */
  ghost predicate Cover(x: bv64, y: bv64) {
    forall k: nat | k < 64 && In(y, k) :: In(x, k)
  }

  lemma Shares(x: bv64, y: bv64)
    ensures Both(x, y) != 0 <==> Share(x, y)
  {
    hide Both, In;
    SomeIn(Both(x, y));
    forall k: nat ensures In(Both(x, y), k) <==> In(x, k) && In(y, k) {
      InBoth(x, y, k);
    }
  }

  lemma Covers(x: bv64, y: bv64)
    ensures Both(x, y) == y <==> Cover(x, y)
  {
    hide Both, Either, In;
    var z := Both(x, y);
    SomeIn(Either(z, y));
    Differ(z, y);
    forall k: nat ensures In(Either(z, y), k) <==> In(y, k) && !In(x, k) {
      InBoth(x, y, k);
      InBoth(z, y, k);
    }
  }

  lemma ByNumber(x: bv8, y: bv8)
    ensures x <= y <==> x as nat <= y as nat
  {
  }

  /** An event is enabled while the provider is, if its level is not above that of the settings or either is zero, and if
      it has no keyword, or one that shares a bit with matchAny and has all bits of matchAll. */
  lemma EnabledIff(s: Settings, e: Event)
    ensures EventEnabled(s, e) <==>
      && s.enabled
      && (e.level as nat == 0 || s.level as nat == 0 || e.level as nat <= s.level as nat)
      && (e.keyword == 0 || (Share(e.keyword, s.matchAny) && Cover(e.keyword, s.matchAll)))
  {
    hide LevelEnabled, KeywordEnabled, Share, Cover;
    LevelIff(s, e.level);
    KeywordIff(s, e.keyword);
  }

  lemma LevelIff(s: Settings, level: bv8)
    ensures LevelEnabled(s, level) <==> level as nat == 0 || s.level as nat == 0 || level as nat <= s.level as nat
  {
    ByNumber(level, s.level);
    ByNumber(level, 0);
    ByNumber(s.level, 0);
  }

  lemma KeywordIff(s: Settings, keyword: bv64)
    ensures KeywordEnabled(s, keyword)
            <==> keyword == 0 || (Share(keyword, s.matchAny) && Cover(keyword, s.matchAll))
  {
    hide Share, Cover, Both;
    Shares(keyword, s.matchAny);
    Covers(keyword, s.matchAll);
  }

  /** Raising a level that is not zero disables no event. */
  lemma LevelRaised(s: Settings, level: bv8, e: Event)
    requires 0 < s.level as nat <= level as nat && EventEnabled(s, e)
    ensures EventEnabled(s.(level := level), e)
  {
    hide LevelEnabled, KeywordEnabled, Share, Cover;
    EnabledIff(s, e);
    EnabledIff(s.(level := level), e);
  }

  // ---------------------------------------------------------------- the mask

  /** The test of a bit in an array of 32-bit words. */
  predicate WordBit(mask: seq<bv32>, i: nat)
    requires i / 32 < |mask|
  {
    Has(mask[i / 32], Bit(i % 32))
  }

  function Changed(w: bv32, b: bv32, on: bool): bv32 {
    if on then Set(w, b) else Clear(w, b)
  }

  lemma SameBit(w: bv32, b: bv32, on: bool)
    requires b != 0
    ensures Has(Changed(w, b, on), b) <==> on
  {
    if on {
      HasSet(w, b);
    } else {
      HasClear(w, b);
    }
  }

  lemma OtherBit(w: bv32, b: bv32, c: bv32, on: bool)
    requires b & c == 0
    ensures Has(Changed(w, b, on), c) <==> Has(w, c)
  {
    if on {
      OthersSet(w, b, c);
    } else {
      OthersClear(w, b, c);
    }
  }

  lemma BitsApart(a: nat, b: nat)
    requires a != b
    ensures Bit(a) & Bit(b) == 0
  {
    if a < b {
      Apart(a, b);
    } else {
      Apart(b, a);
      Commutes(Bit(a), Bit(b));
    }
  }

  /** Changing one bit of a word changes no other. */
  lemma ChangedBit(w: bv32, a: nat, b: nat, on: bool)
    requires a < 32 && b < 32
    ensures Has(Changed(w, Bit(a), on), Bit(b)) <==> if a == b then on else Has(w, Bit(b))
  {
    if a == b {
      NotZero(a);
      SameBit(w, Bit(a), on);
    } else {
      BitsApart(a, b);
      OtherBit(w, Bit(a), Bit(b), on);
    }
  }

  /** Changing the bit of event `i` changes no other. */
  lemma OtherBits(mask: seq<bv32>, i: nat, j: nat, on: bool)
    requires i / 32 < |mask| && j / 32 < |mask|
    ensures var w := mask[i / 32]; var b := Bit(i % 32);
      WordBit(mask[i / 32 := Changed(w, b, on)], j) <==>
      if j == i then on else WordBit(mask, j)
  {
    ChangedBit(mask[i / 32], i % 32, j % 32, on);
  }

  lemma Commutes(b: bv32, c: bv32)
    requires c & b == 0
    ensures b & c == 0
  {
  }

  lemma ZeroBits(mask: seq<bv32>, i: nat)
    requires i / 32 < |mask| && mask[i / 32] == 0
    ensures !WordBit(mask, i)
  {
  }

  class TraceContext {
    const events: seq<Event>
    const enableBitMask: array<bv32>
    var settings: Settings

    /** As many words as the events need. */
    ghost predicate Shaped() {
      forall i: nat | i < |events| :: i / 32 < enableBitMask.Length
    }

    /** The cache is right. */
    ghost predicate Valid()
      reads this, enableBitMask
    {
      Shaped() && Cached(|events|)
    }

    ghost predicate Cached(n: nat)
      requires n <= |events| && Shaped()
      reads this, enableBitMask
    {
      forall i: nat | i < n :: CachedAt(i)
    }

    ghost predicate CachedAt(i: nat)
      requires i < |events| && Shaped()
      reads this, enableBitMask
    {
      WordBit(enableBitMask[..], i) <==> EventEnabled(settings, events[i])
    }

    /** The generated context: disabled, all bits zero. */
    constructor (events: seq<Event>)
      ensures Valid() && fresh(enableBitMask) && this.events == events && settings == Settings(false, 0, 0, 0)
    {
      this.events := events;
      var words := if |events| == 0 then 0 else (|events| - 1) / 32 + 1;
      enableBitMask := new bv32[words](_ => 0);
      settings := Settings(false, 0, 0, 0);
      new;
      forall i: nat | i < |events| ensures CachedAt(i) {
        ZeroBits(enableBitMask[..], i);
      }
    }

    /** McGenControlCallbackV2. */
    method ControlCallback(code: int, level: bv8, matchAny: bv64, matchAll: bv64)
      requires Valid()
      modifies `settings, enableBitMask
      ensures Valid()
      ensures settings ==
        if code == ENABLE_PROVIDER then Settings(true, level, matchAny, matchAll)
        else if code == DISABLE_PROVIDER then Settings(false, 0, 0, 0)
        else old(settings)
      ensures code == ENABLE_PROVIDER ==> forall i: nat | i < |events| ::
        i / 32 < enableBitMask.Length &&
        (WordBit(enableBitMask[..], i) <==>
           && (events[i].level as nat == 0 || level as nat == 0 || events[i].level as nat <= level as nat)
           && (events[i].keyword == 0 || (Share(events[i].keyword, matchAny) && Cover(events[i].keyword, matchAll))))
      ensures code == DISABLE_PROVIDER ==> forall i: nat | i < |events| ::
        i / 32 < enableBitMask.Length && !WordBit(enableBitMask[..], i)
    {
      hide LevelEnabled, KeywordEnabled, Share, Cover;
      if code == ENABLE_PROVIDER {
        settings := Settings(true, level, matchAny, matchAll);
        var i := 0;
        while i < |events|
          invariant 0 <= i <= |events| && settings == Settings(true, level, matchAny, matchAll) && Cached(i)
        {
          Update(i);
          i := i + 1;
        }
        forall i: nat | i < |events| {
          EnabledIff(settings, events[i]);
        }
        Shown();
      } else if code == DISABLE_PROVIDER {
        settings := Settings(false, 0, 0, 0);
        Zero();
        forall i: nat | i < |events| ensures i / 32 < enableBitMask.Length && !WordBit(enableBitMask[..], i) {
          assert CachedAt(i);
        }
      }
    }

    lemma Shown()
      requires Valid()
      ensures forall i: nat {:trigger events[i]} | i < |events| ::
        i / 32 < enableBitMask.Length && (WordBit(enableBitMask[..], i) <==> EventEnabled(settings, events[i]))
    {
      forall i: nat {:trigger events[i]} | i < |events|
        ensures i / 32 < enableBitMask.Length && (WordBit(enableBitMask[..], i) <==> EventEnabled(settings, events[i]))
      {
        assert CachedAt(i);
      }
    }

    method Update(i: nat)
      requires Shaped() && i < |events| && Cached(i) && settings.enabled
      modifies enableBitMask
      ensures Cached(i + 1)
    {
      ghost var was := enableBitMask[..];
      var on := LevelKeywordEnabled(settings, events[i]);
      if on {
        enableBitMask[i / 32] := Set(enableBitMask[i / 32], Bit(i % 32));
      } else {
        enableBitMask[i / 32] := Clear(enableBitMask[i / 32], Bit(i % 32));
      }
      var w, b := was[i / 32], Bit(i % 32);
      assert enableBitMask[..] == was[i / 32 := Changed(w, b, on)];
      forall j: nat | j < i + 1 ensures CachedAt(j) {
        OtherBits(was, i, j, on);
        assert j < i ==> old(CachedAt(j));
      }
    }

    /** RtlZeroMemory over the words in use. */
    method Zero()
      requires Shaped() && !settings.enabled
      modifies enableBitMask
      ensures Cached(|events|)
    {
      if |events| > 0 {
        var words := (|events| - 1) / 32 + 1;
        assert |events| - 1 < |events|;
        forall k | 0 <= k < words {
          enableBitMask[k] := 0;
        }
        forall i: nat | i < |events| ensures CachedAt(i) {
          ZeroBits(enableBitMask[..], i);
        }
      }
    }
  }

  // ---------------------------------------------------------------- two ways to test a bit

  /** Octet `n` of a word in little-endian memory. */
  function Part(w: bv32, n: nat): bv32 {
    if n == 0 then w & 0xff else if n == 1 then (w >> 8) & 0xff else if n == 2 then (w >> 16) & 0xff else (w >> 24) & 0xff
  }

  function OctetOf(mask: seq<bv32>, n: nat): bv32
    requires n / 4 < |mask|
  {
    Part(mask[n / 4], n % 4)
  }

  /** MCGEN_EVENT_BIT_SET as it is on x86: the bit of an octet. */
  predicate OctetBit(mask: seq<bv32>, i: nat)
    requires i / 32 < |mask|
  {
    Has(OctetOf(mask, i / 8), Bit(i % 8))
  }

  lemma LowBit(r: nat)
    requires r < 8
    ensures Bit(r) <= 0x80
  {
    AllBits();
  }

  lemma Octet0(w: bv32, x: bv32)
    requires x <= 0x80
    ensures Has(w & 0xff, x) <==> Has(w, x)
  {
    assert (w & 0xff) & x == w & x;
  }

  lemma Octet1(w: bv32, x: bv32)
    requires x <= 0x80
    ensures Has((w >> 8) & 0xff, x) <==> Has(w, x << 8)
  {
    assert ((w >> 8) & 0xff) & x == (w & (x << 8)) >> 8;
    assert (w & (x << 8)) & 0xff == 0;
  }

  lemma Octet2(w: bv32, x: bv32)
    requires x <= 0x80
    ensures Has((w >> 16) & 0xff, x) <==> Has(w, x << 16)
  {
    assert ((w >> 16) & 0xff) & x == (w & (x << 16)) >> 16;
    assert (w & (x << 16)) & 0xffff == 0;
  }

  lemma Octet3(w: bv32, x: bv32)
    requires x <= 0x80
    ensures Has((w >> 24) & 0xff, x) <==> Has(w, x << 24)
  {
    assert ((w >> 24) & 0xff) & x == (w & (x << 24)) >> 24;
    assert (w & (x << 24)) & 0xff_ffff == 0;
  }

  lemma OctetsOn(r: nat)
    requires r < 8
    ensures Bit(r + 8) == Bit(r) << 8 && Bit(r + 16) == Bit(r) << 16 && Bit(r + 24) == Bit(r) << 24
  {
    AllBits();
    assert r == 0 || r == 1 || r == 2 || r == 3 || r == 4 || r == 5 || r == 6 || r == 7;
  }

  /** One bit of octet `n` of a word. */
  lemma OctetInWord(w: bv32, n: nat, r: nat)
    requires n < 4 && r < 8
    ensures Has(Part(w, n), Bit(r)) <==> Has(w, Bit(8 * n + r))
  {
    hide Bit, Has, Meet;
    LowBit(r);
    OctetsOn(r);
    if n == 0 {
      Octet0(w, Bit(r));
    } else if n == 1 {
      Octet1(w, Bit(r));
    } else if n == 2 {
      Octet2(w, Bit(r));
    } else {
      Octet3(w, Bit(r));
    }
  }

  /** On little-endian memory the test by octets is the test by words. */
  lemma SameTest(mask: seq<bv32>, i: nat)
    requires i / 32 < |mask|
    ensures i / 8 / 4 < |mask| && (OctetBit(mask, i) <==> WordBit(mask, i))
  {
    assert i / 8 / 4 == i / 32 && i % 32 == 8 * (i / 8 % 4) + i % 8;
    OctetInWord(mask[i / 32], i / 8 % 4, i % 8);
  }

  // ---------------------------------------------------------------- any number of callbacks

  datatype Control = Control(code: int, level: bv8, matchAny: bv64, matchAll: bv64)

  /** The settings that hold after some callbacks: those of the last one that had any. */
  function SettingsAfter(cs: seq<Control>): Settings {
    if |cs| == 0 then Settings(false, 0, 0, 0)
    else
      var c := cs[|cs| - 1];
      if c.code == ENABLE_PROVIDER then Settings(true, c.level, c.matchAny, c.matchAll)
      else if c.code == DISABLE_PROVIDER then Settings(false, 0, 0, 0)
      else SettingsAfter(cs[..|cs| - 1])
  }

  /** After any callbacks, either test of an event's bit tells whether the settings in force enable the event: whether its
      level is not above theirs or either is zero, and it has no keyword or one that shares a bit with matchAny and has
      all bits of matchAll. */
  method RunCallbacks(events: seq<Event>, cs: seq<Control>) returns (mask: seq<bv32>)
    ensures forall i: nat | i < |events| ::
      && i / 32 < |mask| && i / 8 / 4 < |mask|
      && (WordBit(mask, i) <==> OctetBit(mask, i))
      && var s, e := SettingsAfter(cs), events[i];
         WordBit(mask, i) <==>
           && s.enabled
           && (e.level as nat == 0 || s.level as nat == 0 || e.level as nat <= s.level as nat)
           && (e.keyword == 0 || (Share(e.keyword, s.matchAny) && Cover(e.keyword, s.matchAll)))
  {
    hide LevelEnabled, KeywordEnabled, Share, Cover;
    var context := new TraceContext(events);
    var k := 0;
    while k < |cs|
      invariant 0 <= k <= |cs| && context.Valid() && context.events == events
      invariant fresh(context) && fresh(context.enableBitMask) && context.settings == SettingsAfter(cs[..k])
    {
      assert cs[..k + 1][..k] == cs[..k];
      context.ControlCallback(cs[k].code, cs[k].level, cs[k].matchAny, cs[k].matchAll);
      k := k + 1;
    }
    assert cs[..k] == cs;
    mask := context.enableBitMask[..];
    forall i: nat | i < |events|
      ensures i / 32 < |mask| && i / 8 / 4 < |mask|
      ensures WordBit(mask, i) <==> EventEnabled(SettingsAfter(cs), events[i])
      ensures WordBit(mask, i) <==> OctetBit(mask, i)
    {
      assert context.CachedAt(i);
      SameTest(mask, i);
    }
    forall i: nat | i < |events| {
      EnabledIff(SettingsAfter(cs), events[i]);
    }
  }
}
