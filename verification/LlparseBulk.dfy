/** Octets in bulk: what a run makes of the octets of a word it matches, and of those of a body, all at once. */
module LlparseBulk {
  import opened Bytes
  import opened LlhttpTypes
  import opened Llparse

  /** The octets agree with the word from index `i` and stop short of its end. */
  predicate MatchesFrom(word: seq<byte>, lower: bool, i: nat, octets: seq<byte>) {
    && i + |octets| < |word|
    && forall j {:trigger octets[j]} | 0 <= j < |octets| :: Fold(octets[j], lower) == word[i + j]
  }

  /** `c` with other fields and more octets in its open span. */
  function Later(c: Config, f: Fields, octets: seq<byte>): Config {
    c.(fields := f, pending := Extend(c.pending, octets))
  }

  lemma ExtendTwice(pending: Option<Pending>, x: seq<byte>, y: seq<byte>)
    ensures Extend(Extend(pending, x), y) == Extend(pending, x + y)
  {
    if pending.Some? {
      assert pending.value.octets + x + y == pending.value.octets + (x + y);
    }
  }

  lemma ExtendNothing(pending: Option<Pending>)
    ensures Extend(pending, []) == pending
  {
    if pending.Some? {
      assert pending.value.octets + [] == pending.value.octets;
    }
  }

  /** One step of a run that stands at offset `p` of a buffer. */
  lemma Stepped(g: Program, r: Reply, c: Config, data: seq<byte>, p: nat)
    requires g.WellFormed() && g.Ready(c) && p <= |data|
    ensures var m := g.Step(r, c, Ahead(data[p..]));
      && (m.Go? ==> g.Ready(m.to))
      && (m.Go? && m.took ==> p < |data| && g.Run(r, c, data[p..]) == g.Run(r, m.to, data[p + 1..]))
      && (m.Go? && !m.took ==>
            g.rank(m.to.place) < g.rank(c.place) && g.Run(r, c, data[p..]) == g.Run(r, m.to, data[p..]))
      && (m.Wait? ==> p == |data| && g.Run(r, c, data[p..]) == Running(c))
      && (m.Stop? ==> g.Run(r, c, data[p..]) == Stopped(m.code, m.reason, m.at, data[p..]))
  {
    g.RunOn(r, c, data[p..]);
    if p < |data| {
      assert data[p..][1..] == data[p + 1..];
    }
  }

  lemma MatchStep(g: Program, r: Reply, c: Config, input: seq<byte>, p: nat)
    requires g.WellFormed() && g.Ready(c) && g.node(c.place).Match? && p < |input|
    requires var n := g.node(c.place); var word := g.word(n.blob);
      c.fields.index + 1 < |word| && Fold(input[p], n.lower) == word[c.fields.index]
    ensures var d := Later(c, c.fields.(index := c.fields.index + 1), [input[p]]);
      g.Ready(d) && g.Run(r, c, input[p..]) == g.Run(r, d, input[p + 1..])
  {
    Stepped(g, r, c, input, p);
  }

  lemma MatchesInit(word: seq<byte>, lower: bool, i: nat, input: seq<byte>, m: nat)
    requires m < |input| && MatchesFrom(word, lower, i, input[..m + 1])
    ensures MatchesFrom(word, lower, i, input[..m]) && i + m + 1 < |word| && Fold(input[m], lower) == word[i + m]
  {
    var s := input[..m + 1];
    assert s[m] == input[m];
    assert forall j {:trigger input[..m][j]} | 0 <= j < m :: input[..m][j] == s[j];
  }

  /** Matching octets one at a time. */
  lemma {:induction false} MatchRun(g: Program, r: Reply, c: Config, input: seq<byte>, k: nat)
    requires g.WellFormed() && g.Ready(c) && g.node(c.place).Match? && k <= |input|
    requires MatchesFrom(g.word(g.node(c.place).blob), g.node(c.place).lower, c.fields.index, input[..k])
    ensures var d := Later(c, c.fields.(index := c.fields.index + k), input[..k]);
      g.Ready(d) && g.Run(r, c, input[0..]) == g.Run(r, d, input[k..])
    decreases k
  {
    hide Program.Ready, Program.Run, Program.WellFormed, MatchesFrom;
    if k == 0 {
      assert input[..0] == [];
      ExtendNothing(c.pending);
    } else {
      var m := k - 1;
      assert input[..k] == input[..m] + [input[m]];
      MatchesInit(g.word(g.node(c.place).blob), g.node(c.place).lower, c.fields.index, input, m);
      MatchRun(g, r, c, input, m);
      MatchStep(g, r, Later(c, c.fields.(index := c.fields.index + m), input[..m]), input, m);
      ExtendTwice(c.pending, input[..m], [input[m]]);
    }
  }

  lemma ConsumeStep(g: Program, r: Reply, c: Config, input: seq<byte>, p: nat)
    requires g.WellFormed() && g.Ready(c) && g.node(c.place).Consume? && p < |input| && c.fields.contentLength > 0
    ensures var d := Later(c, c.fields.(contentLength := c.fields.contentLength - 1), [input[p]]);
      g.Ready(d) && g.Run(r, c, input[p..]) == g.Run(r, d, input[p + 1..])
  {
    Stepped(g, r, c, input, p);
  }

  /** Taking body octets one at a time. */
  lemma {:induction false} ConsumeRun(g: Program, r: Reply, c: Config, input: seq<byte>, k: nat)
    requires g.WellFormed() && g.Ready(c) && g.node(c.place).Consume? && k <= |input| && k <= c.fields.contentLength
    ensures var d := Later(c, c.fields.(contentLength := c.fields.contentLength - k), input[..k]);
      g.Ready(d) && g.Run(r, c, input[0..]) == g.Run(r, d, input[k..])
    decreases k
  {
    if k == 0 {
      assert input[..0] == [];
      ExtendNothing(c.pending);
    } else {
      var m := k - 1;
      assert input[..k] == input[..m] + [input[m]];
      ConsumeRun(g, r, c, input, m);
      ConsumeStep(g, r, Later(c, c.fields.(contentLength := c.fields.contentLength - m), input[..m]), input, m);
      ExtendTwice(c.pending, input[..m], [input[m]]);
    }
  }

  /** Octets that agree with a whole word. */
  predicate Spells(word: seq<byte>, lower: bool, w: seq<byte>) {
    |w| == |word| && forall j {:trigger w[j]} | 0 <= j < |w| :: Fold(w[j], lower) == word[j]
  }

  /** The last octet of a word. */
  lemma MatchLast(g: Program, r: Reply, c: Config, input: seq<byte>, p: nat)
    requires g.WellFormed() && g.Ready(c) && g.node(c.place).Match? && p < |input|
    requires var n := g.node(c.place); var word := g.word(n.blob);
      c.fields.index + 1 == |word| && Fold(input[p], n.lower) == word[c.fields.index]
    ensures var d := Later(c, c.fields.(index := 0), [input[p]]).(place := g.node(c.place).hit);
      g.Ready(d) && g.Run(r, c, input[p..]) == g.Run(r, d, input[p + 1..])
  {
    Stepped(g, r, c, input, p);
  }

  /** A block that finds its word. */
  lemma MatchHit(g: Program, r: Reply, c: Config, w: seq<byte>, rest: seq<byte>)
    requires g.WellFormed() && g.Ready(c) && g.node(c.place).Match? && c.fields.index == 0
    requires var n := g.node(c.place); Spells(g.word(n.blob), n.lower, w)
    ensures var d := Later(c, c.fields, w).(place := g.node(c.place).hit);
      g.Ready(d) && g.Run(r, c, w + rest) == g.Run(r, d, rest)
  {
    assert |w| > 0;
    hide Program.Ready, Program.Run, Program.WellFormed;
    var input, k := w + rest, |w| - 1;
    assert input[..k] == w[..k] && input[0..] == input && input[k] == w[k] && input[k + 1..] == rest;
    MatchRun(g, r, c, input, k);
    MatchLast(g, r, Later(c, c.fields.(index := k), w[..k]), input, k);
    ExtendTwice(c.pending, w[..k], [w[k]]);
    assert w[..k] + [w[k]] == w;
  }

  /** An octet that is not the next of a word. */
  lemma MatchOther(g: Program, r: Reply, c: Config, input: seq<byte>, p: nat)
    requires g.WellFormed() && g.Ready(c) && g.node(c.place).Match? && p < |input|
    requires var n := g.node(c.place); Fold(input[p], n.lower) != g.word(n.blob)[c.fields.index]
    ensures var d := c.(place := g.node(c.place).miss, fields := c.fields.(index := 0));
      g.Ready(d) && g.Run(r, c, input[p..]) == g.Run(r, d, input[p..])
  {
    Stepped(g, r, c, input, p);
  }

  /** A block that finds the beginning of its word and then another octet. */
  lemma MatchMiss(g: Program, r: Reply, c: Config, w: seq<byte>, rest: seq<byte>)
    requires g.WellFormed() && g.Ready(c) && g.node(c.place).Match? && c.fields.index == 0 && |rest| > 0
    requires var n := g.node(c.place); var word := g.word(n.blob);
      MatchesFrom(word, n.lower, 0, w) && Fold(rest[0], n.lower) != word[|w|]
    ensures var d := Later(c, c.fields, w).(place := g.node(c.place).miss);
      g.Ready(d) && g.Run(r, c, w + rest) == g.Run(r, d, rest)
  {
    var input, k := w + rest, |w|;
    assert input[..k] == w && input[k..] == rest && input[0..] == input;
    MatchRun(g, r, c, input, k);
    MatchOther(g, r, Later(c, c.fields.(index := k), w), input, k);
  }

  /** A block that runs out of input in the middle of its word. */
  lemma MatchWaits(g: Program, r: Reply, c: Config, w: seq<byte>)
    requires g.WellFormed() && g.Ready(c) && g.node(c.place).Match? && c.fields.index == 0
    requires var n := g.node(c.place); MatchesFrom(g.word(n.blob), n.lower, 0, w)
    ensures g.Run(r, c, w) == Running(Later(c, c.fields.(index := |w|), w))
  {
    assert w[..|w|] == w && w[0..] == w && w[|w|..] == [];
    MatchRun(g, r, c, w, |w|);
    Stepped(g, r, Later(c, c.fields.(index := |w|), w), w, |w|);
  }
}
