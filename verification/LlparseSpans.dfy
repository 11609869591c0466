/** What a caller has heard of a span that is open when a run stops. Octets of a span are handed over when the span ends
    and at the end of every buffer, but not when the run stops in the middle of one. */
module LlparseSpans {
  import opened Bytes
  import opened LlhttpTypes
  import opened Llparse
  import opened LlparseBulk

  // ---------------------------------------------------------------- the open span along a run

  predicate IsEndOf(s: seq<byte>, whole: seq<byte>) {
    |s| <= |whole| && s == whole[|whole| - |s|..]
  }

  /** From `c` to `d` taking the octets: a span that stays open takes them all, one opened since takes the last of
      them. */
  predicate SpanWent(c: Config, d: Config, taken: seq<byte>) {
    && c.out <= d.out
    && if d.out == c.out && c.pending.Some? then d.pending == Extend(c.pending, taken)
       else d.pending.Some? ==> IsEndOf(d.pending.value.octets, taken)
  }

  lemma EndOfMore(s: seq<byte>, x: seq<byte>, y: seq<byte>)
    ensures IsEndOf(s, x) ==> IsEndOf(s + y, x + y)
    ensures IsEndOf(s, y) ==> IsEndOf(s, x + y)
  {
    var n := |x + y|;
    if IsEndOf(s, x) {
      assert (x + y)[n - |s + y|..] == s + y;
    }
    if IsEndOf(s, y) {
      assert (x + y)[n - |s|..] == s;
    }
  }

  lemma WentOn(c: Config, d: Config, e: Config, x: seq<byte>, y: seq<byte>)
    requires SpanWent(c, d, x) && SpanWent(d, e, y)
    ensures SpanWent(c, e, x + y)
  {
    ExtendTwice(c.pending, x, y);
    if d.pending.Some? {
      EndOfMore(d.pending.value.octets, x, y);
    }
    if e.pending.Some? {
      EndOfMore(e.pending.value.octets, x, y);
    }
    if e.out == d.out && d.pending.None? && e.pending.Some? {
      EndOfMore(e.pending.value.octets, x, y);
    }
  }

  lemma StepSpan(g: Program, r: Reply, c: Config, next: Option<byte>)
    requires g.WellFormed() && g.Ready(c)
    ensures match g.Step(r, c, next)
            case Go(to, took) => (took ==> next.Some?) && SpanWent(c, to, if took then [next.value] else [])
            case Wait => SpanWent(c, c, [])
            case Stop(_, _, at) => SpanWent(c, at, [])
  {
    ExtendNothing(c.pending);
    g.StepReady(r, c, next);
  }

  /** How many octets a run took. */
  function Taken(o: Outcome, input: seq<byte>): nat
    requires o.Stopped? ==> |o.rest| <= |input|
  {
    if o.Stopped? then |input| - |o.rest| else |input|
  }

  /** The open span along a whole run. */
  lemma {:induction false} RunSpan(g: Program, r: Reply, c: Config, input: seq<byte>)
    requires g.WellFormed() && g.Ready(c)
    ensures var o := g.Run(r, c, input);
      && (o.Stopped? ==> |o.rest| <= |input|)
      && SpanWent(c, o.c, input[..Taken(o, input)])
    decreases |input|, g.rank(c.place)
  {
    hide SpanWent;
    g.RunOn(r, c, input);
    g.RunStops(r, c, input);
    StepSpan(g, r, c, Ahead(input));
    var m, o := g.Step(r, c, Ahead(input)), g.Run(r, c, input);
    if m.Go? {
      var rest := if m.took then input[1..] else input;
      RunSpan(g, r, m.to, rest);
      var x, y := if m.took then [input[0]] else [], rest[..Taken(o, rest)];
      assert x + y == input[..Taken(o, input)];
      WentOn(c, m.to, o.c, x, y);
    } else if m.Stop? {
      assert input[..0] == [];
    } else {
      assert input[..|input|] == [];
    }
  }

  /** An open span that holds an octet. */
  predicate Solid(pending: Option<Pending>) {
    pending.Some? ==> |pending.value.octets| > 0
  }

  lemma StepSolid(g: Program, r: Reply, c: Config, next: Option<byte>)
    requires g.WellFormed() && g.Ready(c) && (next.None? ==> Solid(c.pending))
    ensures var m := g.Step(r, c, next); m.Go? && (m.took || next.None?) ==> Solid(m.to.pending)
  {
    g.StepReady(r, c, next);
  }

  /** Spans begin only with an octet ahead, so none is without octets when a buffer ends. */
  lemma {:induction false} RunSolid(g: Program, r: Reply, c: Config, input: seq<byte>)
    requires g.WellFormed() && g.Ready(c) && (Solid(c.pending) || |input| > 0)
    ensures var o := g.Run(r, c, input); o.Running? ==> Solid(o.c.pending)
    decreases |input|, g.rank(c.place)
  {
    g.RunOn(r, c, input);
    StepSolid(g, r, c, Ahead(input));
    var m := g.Step(r, c, Ahead(input));
    if m.Go? {
      RunSolid(g, r, m.to, if m.took then input[1..] else input);
    }
  }

  // ---------------------------------------------------------------- what the caller has heard

  /** What the caller has heard of the open span when the run over one buffer has gone from `c` to `o`: all of it, but
      after a stop only what earlier buffers brought, if the span was already open. */
  function OpenHeard(c: Config, o: Outcome): Option<Pending> {
    if o.Stopped? then (if o.c.out == c.out then c.pending else None) else o.c.pending
  }

  /** The same over any number of buffers. */
  function OpenOver(g: Program, r: Reply, c: Config, pieces: seq<seq<byte>>): Option<Pending>
    requires g.WellFormed() && g.Ready(c)
    decreases |pieces|
  {
    if |pieces| == 0 then c.pending
    else
      var o := g.Run(r, c, pieces[0]);
      if o.Running? then OpenOver(g, r, o.c, pieces[1..]) else OpenHeard(c, o)
  }

  /** Where the last buffer begins that the run gets to. */
  function LastBuffer(g: Program, r: Reply, c: Config, pieces: seq<seq<byte>>): nat
    requires g.WellFormed() && g.Ready(c)
    decreases |pieces|
  {
    if |pieces| <= 1 then 0
    else
      var o := g.Run(r, c, pieces[0]);
      if o.Running? then |pieces[0]| + LastBuffer(g, r, o.c, pieces[1..]) else 0
  }

  /** It is the buffer in which the run stops. */
  lemma {:induction false} LastBufferStops(g: Program, r: Reply, c: Config, pieces: seq<seq<byte>>) returns (k: nat)
    requires g.WellFormed() && g.Ready(c) && g.RunPieces(r, c, pieces).Stopped?
    ensures k < |pieces| && LastBuffer(g, r, c, pieces) == |Flatten(pieces[..k])|
    ensures g.RunPieces(r, c, pieces[..k]).Running? && g.RunPieces(r, c, pieces[..k + 1]).Stopped?
    decreases |pieces|
  {
    var o := g.Run(r, c, pieces[0]);
    if o.Running? {
      var t := LastBufferStops(g, r, o.c, pieces[1..]);
      k := t + 1;
      assert pieces[..k][1..] == pieces[1..][..t] && pieces[..k + 1][1..] == pieces[1..][..t + 1];
    } else {
      k := 0;
    }
  }

  /** The octets of an open span that lie before offset `b`. */
  function Before(pending: Option<Pending>, end: int, b: int): Option<Pending> {
    match pending
    case None => None
    case Some(p) =>
      var k := b - (end - |p.octets|);
      if 0 < k <= |p.octets| then Some(Pending(p.kind, p.octets[..k])) else None
  }

  /** One buffer that stops the run. */
  lemma StopHeard(g: Program, r: Reply, c: Config, input: seq<byte>)
    requires g.WellFormed() && g.Ready(c) && Solid(c.pending)
    requires g.Run(r, c, input).Stopped?
    ensures var o := g.Run(r, c, input);
      |o.rest| <= |input| && OpenHeard(c, o) == Before(o.c.pending, |input| - |o.rest|, 0)
  {
    RunSpan(g, r, c, input);
    var o := g.Run(r, c, input);
    if o.c.out == c.out && c.pending.Some? {
      assert (c.pending.value.octets + input[..Taken(o, input)])[..|c.pending.value.octets|] == c.pending.value.octets;
    }
  }

  /** After an error the caller has heard of the open span exactly the octets that came before the buffer with the error:
      nothing, unless an earlier buffer ended inside the span. */
  lemma {:induction false} OpenIs(g: Program, r: Reply, c: Config, pieces: seq<seq<byte>>)
    requires g.WellFormed() && g.Ready(c) && Solid(c.pending) && |pieces| > 0
    ensures var o := g.Run(r, c, Flatten(pieces)); var b := LastBuffer(g, r, c, pieces);
      OpenOver(g, r, c, pieces) ==
        if o.Running? then o.c.pending else Before(o.c.pending, |Flatten(pieces)| - |o.rest|, b)
    decreases |pieces|
  {
    hide Program.Ready, Program.Run, Program.WellFormed;
    var first, rest := g.Run(r, c, pieces[0]), Flatten(pieces[1..]);
    g.RunSplit(r, c, pieces[0], rest);
    RunSolid(g, r, c, pieces[0]);
    if first.Stopped? {
      StopHeard(g, r, c, pieces[0]);
    } else if |pieces| > 1 {
      OpenIs(g, r, first.c, pieces[1..]);
    } else {
      assert pieces[0] + rest == pieces[0];
    }
  }

  lemma {:induction false} LastBufferTaken(g: Program, r: Reply, c: Config, pieces: seq<seq<byte>>)
    requires g.WellFormed() && g.Ready(c) && |pieces| > 0
    ensures var o := g.Run(r, c, Flatten(pieces)); var b := LastBuffer(g, r, c, pieces);
      b <= |Flatten(pieces)| && (o.Stopped? ==> b <= |Flatten(pieces)| - |o.rest|)
    decreases |pieces|
  {
    var first, rest := g.Run(r, c, pieces[0]), Flatten(pieces[1..]);
    g.RunSplit(r, c, pieces[0], rest);
    g.RunStops(r, c, pieces[0] + rest);
    if first.Running? && |pieces| > 1 {
      LastBufferTaken(g, r, first.c, pieces[1..]);
    }
  }

  /** Offset `b` lies inside the span that is open at offset `end`. */
  predicate CutOpen(pending: Option<Pending>, end: int, b: int) {
    pending.Some? && end - |pending.value.octets| < b
  }

  lemma TwoBuffers(g: Program, r: Reply, c: Config, a: seq<byte>, b: seq<byte>)
    requires g.WellFormed() && g.Ready(c) && g.Run(r, c, a).Running?
    ensures var d := g.Run(r, c, a).c;
      g.Run(r, c, a + b) == g.Run(r, d, b) && OpenOver(g, r, c, [a, b]) == OpenHeard(d, g.Run(r, d, b))
  {
    g.RunSplit(r, c, a, b);
    var d := g.Run(r, c, a).c;
    var two, one := [a, b], [b];
    assert two[0] == a && two[1..] == one && one[0] == b && |one[1..]| == 0;
    assert OpenOver(g, r, d, one) == OpenHeard(d, g.Run(r, d, b));
  }

  /** What has been heard of a span that is open at offset `end`: nothing exactly if offset `b` does not lie inside it,
      otherwise the span from where it begins to there. */
  predicate HeardUpTo(heard: Option<Pending>, pending: Option<Pending>, whole: seq<byte>, end: nat, b: nat) {
    && (heard == None <==> !CutOpen(pending, end, b))
    && (CutOpen(pending, end, b) ==>
          var start := end - |pending.value.octets|;
          && 0 <= start < b <= end <= |whole| && pending.value.octets == whole[start..end]
          && heard == Some(Pending(pending.value.kind, whole[start..b])))
  }

  lemma OpenPart(pending: Option<Pending>, whole: seq<byte>, end: nat, b: nat)
    requires b <= end <= |whole| && (pending.Some? ==> IsEndOf(pending.value.octets, whole[..end]))
    ensures HeardUpTo(Before(pending, end, b), pending, whole, end, b)
  {
    if CutOpen(pending, end, b) {
      var start := end - |pending.value.octets|;
      assert pending.value.octets == whole[start..end];
      assert whole[start..end][..b - start] == whole[start..b];
    }
  }

  /** A stop in the only buffer. */
  lemma OpenOne(g: Program, r: Reply, c: Config, whole: seq<byte>)
    requires g.WellFormed() && g.Ready(c) && c.pending.None? && g.Run(r, c, whole).Stopped?
    ensures OpenOver(g, r, c, [whole]) == None
  {
    assert [whole][0] == whole;
  }

  /** Where splitting the input does show. A run that stops in the middle of a span and comes in one buffer leaves the
      caller without an octet of the span. It does so in several exactly if none before the last it gets to ended inside
      the span; otherwise the caller has heard the span up to there. */
  lemma OpenIff(g: Program, r: Reply, c: Config, pieces: seq<seq<byte>>)
    requires g.WellFormed() && g.Ready(c) && c.pending.None? && |pieces| > 0
    requires g.Run(r, c, Flatten(pieces)).Stopped?
    ensures OpenOver(g, r, c, [Flatten(pieces)]) == None
    ensures var o := g.Run(r, c, Flatten(pieces)); var end := |Flatten(pieces)| - |o.rest|;
      && end >= 0
      && HeardUpTo(OpenOver(g, r, c, pieces), o.c.pending, Flatten(pieces), end, LastBuffer(g, r, c, pieces))
  {
    hide Program.Run, Program.Ready, Program.WellFormed, OpenOver, LastBuffer, Before;
    OpenOne(g, r, c, Flatten(pieces));
    RunSpan(g, r, c, Flatten(pieces));
    OpenIs(g, r, c, pieces);
    LastBufferTaken(g, r, c, pieces);
    var o := g.Run(r, c, Flatten(pieces));
    OpenPart(o.c.pending, Flatten(pieces), |Flatten(pieces)| - |o.rest|, LastBuffer(g, r, c, pieces));
  }

  // ---------------------------------------------------------------- one buffer more

  lemma {:induction false} PiecesMore(g: Program, r: Reply, c: Config, pieces: seq<seq<byte>>, x: seq<byte>)
    requires g.WellFormed() && g.Ready(c)
    ensures var o := g.RunPieces(r, c, pieces);
      && g.RunPieces(r, c, pieces + [x]) == g.Continue(r, o, x)
      && OpenOver(g, r, c, pieces + [x])
         == if o.Running? then OpenHeard(o.c, g.Run(r, o.c, x)) else OpenOver(g, r, c, pieces)
    decreases |pieces|
  {
    var all := pieces + [x];
    if |pieces| == 0 {
      assert all[0] == x && all[1..] == [];
      if g.Run(r, c, x).Stopped? {
        assert g.Run(r, c, x).rest + [] == g.Run(r, c, x).rest;
      }
    } else {
      assert all[0] == pieces[0] && all[1..] == pieces[1..] + [x];
      var first := g.Run(r, c, pieces[0]);
      if first.Running? {
        PiecesMore(g, r, first.c, pieces[1..], x);
      } else {
        FlattenMore(pieces[1..], x);
        Regroup(first.rest, Flatten(pieces[1..]), x);
      }
    }
  }
}
