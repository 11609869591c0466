/** The kind of machine llparse generates: a program of labelled blocks run over input that arrives in pieces. This
    module says what such a program does to one octet at a time. Its configurations hold no buffer offsets; that is
    what makes running over pieces of the input the same as running over the input. */
module Llparse {
  import opened Bytes
  import opened LlhttpTypes

  /** A callback as a whole, with the pieces of one span put together. */
  datatype Event =
    | Span(kind: SpanKind, octets: seq<byte>)
    | Marked(mark: Mark, seen: Fields)

  /** The octets of a span that has begun and not ended. */
  datatype Pending = Pending(kind: SpanKind, octets: seq<byte>)

  datatype Config = Config(place: Label, fields: Fields, pending: Option<Pending>, out: seq<Event>)

  /** A parser that has read nothing. */
  function Initial(typ: nat): Config {
    Config(Begin(Start), Fields(0, 0, typ, 0, 0, 0, 0, 0, 0, 0, 0), None, [])
  }

  /** One step: go on (having taken an octet or not), wait for an octet, or stop. */
  datatype Move =
    | Go(to: Config, took: bool)
    | Wait
    | Stop(code: int, reason: Reason, at: Config)

  /** How running a configuration over some input ends: all of it taken, or a stop with the rest not taken. */
  datatype Outcome =
    | Running(c: Config)
    | Stopped(code: int, reason: Reason, c: Config, rest: seq<byte>)

  /** The codes of the parser's own errors. */
  predicate FailCode(code: int) {
    0 < code < HPE_PAUSED
  }

  /** The 64-bit counter is one, and `finish` is one of its three values. */
  predicate InRange(f: Fields) {
    f.contentLength <= UINT64_MAX && f.finish <= 2
  }

  function OpenSpan(pending: Option<Pending>): SpanKind {
    if pending.Some? then pending.value.kind else NoSpan
  }

  /** The open span, if any, some octets longer. */
  function Extend(pending: Option<Pending>, octets: seq<byte>): Option<Pending> {
    match pending
    case None => None
    case Some(p) => Some(Pending(p.kind, p.octets + octets))
  }

  function Carried(open: Option<Pending>): seq<byte> {
    if open.Some? then open.value.octets else []
  }

  /** Report the open span and go to `next`. */
  function Close(c: Config, kind: SpanKind, next: Label): Config {
    c.(place := next, pending := None, out := c.out + [Span(kind, Carried(c.pending))])
  }

  function Peeked(c: Config, octet: byte, e: Edge): Move {
    match e
    case Advance(next) => Go(c.(place := next, pending := Extend(c.pending, [octet])), true)
    case Stay(next) => Go(c.(place := next), false)
    case EndAndAdvance(kind, next) => Go(Close(c, kind, next), true)
  }

  /** to_lower_unsafe: sets one bit, whatever the octet. */
  function Fold(octet: byte, lower: bool): byte {
    if lower then octet | 0x20 else octet
  }

  function Matched(c: Config, octet: byte, word: seq<byte>, lower: bool, hit: Label, miss: Label): Move
    requires c.fields.index < |word|
  {
    if Fold(octet, lower) != word[c.fields.index] then
      Go(c.(place := miss, fields := c.fields.(index := 0)), false)
    else if c.fields.index + 1 == |word| then
      Go(c.(place := hit, fields := c.fields.(index := 0), pending := Extend(c.pending, [octet])), true)
    else
      Go(c.(fields := c.fields.(index := c.fields.index + 1), pending := Extend(c.pending, [octet])), true)
  }

  function Ahead(input: seq<byte>): Option<byte> {
    if |input| == 0 then None else Some(input[0])
  }

  /** A program: its blocks, where each octet leads from a Peek block, what the Invoke blocks do, where the answers to
      callbacks lead, and the words to match; with, for the arguments about it, the span that is open at each label
      and a rank. */
  datatype Program = Program(
    node: Label -> Node,
    dispatch: (Label, byte) -> Edge,
    invoke: (Label, Fields) -> (Fields, Label),
    answered: (Label, int) -> Option<Label>,
    word: nat -> seq<byte>,
    span: Label -> SpanKind,
    rank: Label -> nat)
  {
    // -------------------------------------------------------------- what is asked of a program

    /** An edge from `l` to `next` with the same span open. */
    predicate SameSpan(l: Label, next: Label) {
      if next.Fail? then FailCode(next.code) else span(next) == span(l)
    }

    /** The span discipline of a peeked octet: the span stays as it is, or a span that is open ends. */
    predicate EdgeSpan(l: Label, e: Edge) {
      match e
      case Advance(next) => SameSpan(l, next)
      case Stay(next) => SameSpan(l, next)
      case EndAndAdvance(kind, next) =>
        span(l) == kind && !kind.NoSpan? && span(next).NoSpan? && !next.Fail?
    }

    /** An octet that is not taken leads down. */
    predicate EdgeRank(l: Label, e: Edge) {
      e.Stay? ==> rank(e.next) < rank(l)
    }

    /** The span discipline of a block that peeks no octet. */
    predicate NodeSpan(l: Label, n: Node) {
      match n
      case Peek | Invoke => true
      case Match(_, _, hit, miss) => SameSpan(l, hit) && SameSpan(l, miss)
      case Consume(done) => SameSpan(l, done)
      case SpanStart(kind, next) => span(l).NoSpan? && !kind.NoSpan? && span(next) == kind && !next.Fail?
      case SpanEnd(kind, next) =>
        span(l) == kind && !kind.NoSpan? && span(next).NoSpan? && (next.Fail? ==> FailCode(next.code))
      case Callback(_, next, _, failCode, _) =>
        span(l).NoSpan? && span(next).NoSpan? && !next.Fail? && FailCode(failCode)
      case Pause(code, _, next) =>
        span(l).NoSpan? && span(next).NoSpan? && !next.Fail? && code == HPE_PAUSED_UPGRADE
      case Halt(code, _) => l.Fail? && code == l.code
    }

    /** A block that takes no octet leads down. */
    predicate NodeRank(l: Label, n: Node) {
      match n
      case Match(_, _, _, miss) => rank(miss) < rank(l)
      case Consume(done) => rank(done) < rank(l)
      case SpanStart(_, next) => rank(next) < rank(l)
      case SpanEnd(_, next) => rank(next) < rank(l)
      case _ => true
    }

    /** Invoke blocks keep the span, lead down, and leave the match index and the ranges of the fields alone. */
    predicate InvokeOk(l: Label, f: Fields, g: Fields, next: Label) {
      && SameSpan(l, next) && rank(next) < rank(l)
      && g.index == f.index
      && (InRange(f) ==> InRange(g))
    }

    /** Answers lead down outside any span; zero means go on, and HPE_PAUSED is no such answer. */
    predicate AnswerOk(l: Label, answer: int) {
      && (answered(l, answer).Some? ==>
            var next := answered(l, answer).value;
            span(next).NoSpan? && !next.Fail? && rank(next) < rank(l))
      && (node(l).Callback? && answer == 0 ==> answered(l, answer) == Some(node(l).next))
      && (answer == HPE_PAUSED ==> answered(l, answer).None?)
    }

    predicate WordOk(k: nat) {
      |word(k)| > 0
    }

    ghost predicate WellFormed() {
      && (forall l {:trigger node(l)} :: NodeSpan(l, node(l)) && NodeRank(l, node(l)) && (l.Fail? ==> node(l).Halt?))
      && (forall l, c {:trigger dispatch(l, c)} ::
            node(l).Peek? ==> EdgeSpan(l, dispatch(l, c)) && EdgeRank(l, dispatch(l, c)))
      && (forall l, f {:trigger invoke(l, f)} ::
            node(l).Invoke? ==> InvokeOk(l, f, invoke(l, f).0, invoke(l, f).1))
      && (forall l, answer {:trigger answered(l, answer)} {:trigger AnswerOk(l, answer)} :: AnswerOk(l, answer))
      && (forall k {:trigger word(k)} {:trigger WordOk(k)} :: WordOk(k))
    }

    // -------------------------------------------------------------- steps

    predicate ReadyIndex(n: Node, index: nat) {
      if n.Match? then index < |word(n.blob)| else index == 0
    }

    /** What holds whenever the machine is at a block: the match index fits the word being matched and is zero
        elsewhere, the fields are in range, and a span is open exactly where it should be. */
    predicate Ready(c: Config) {
      && ReadyIndex(node(c.place), c.fields.index)
      && InRange(c.fields)
      && (if c.place.Fail? then FailCode(c.place.code) else OpenSpan(c.pending) == span(c.place))
      && (c.pending.Some? ==> !c.pending.value.kind.NoSpan?)
    }

    /** Ask the caller. */
    function Called(r: Reply, c: Config, n: Node): Move
      requires n.Callback?
    {
      var told := c.(out := c.out + [Marked(n.mark, c.fields)]);
      var answer := r(n.mark, c.fields);
      match answered(c.place, answer)
      case Some(next) => Go(told.(place := next), false)
      case None =>
        if answer == HPE_PAUSED then Stop(HPE_PAUSED, n.pauseReason, told.(place := n.next))
        else Stop(n.failCode, n.failReason, told.(place := Fail(n.failCode, n.failReason)))
    }

    /** One step from `c` with `next` the octet ahead, if there is one. */
    function Step(r: Reply, c: Config, next: Option<byte>): Move
      requires Ready(c)
    {
      var n := node(c.place);
      match n
      case Peek => if next.None? then Wait else Peeked(c, next.value, dispatch(c.place, next.value))
      case Match(blob, lower, hit, miss) =>
        if next.None? then Wait else Matched(c, next.value, word(blob), lower, hit, miss)
      case Consume(done) =>
        if c.fields.contentLength == 0 then Go(c.(place := done), false)
        else if next.None? then Wait
        else
          var f := c.fields.(contentLength := c.fields.contentLength - 1);
          Go(c.(fields := f, pending := Extend(c.pending, [next.value])), true)
      case SpanStart(kind, to) =>
        if next.None? then Wait else Go(c.(place := to, pending := Some(Pending(kind, []))), false)
      case SpanEnd(kind, to) => Go(Close(c, kind, to), false)
      case Invoke =>
        var (f, to) := invoke(c.place, c.fields);
        Go(c.(place := to, fields := f), false)
      case Callback(_, _, _, _, _) => Called(r, c, n)
      case Pause(code, reason, to) => Stop(code, reason, c.(place := to))
      case Halt(code, reason) => Stop(code, reason, c)
    }

    /** A step keeps Ready, and one that takes no octet leads down. */
    /** A step that goes on is ready again, and takes an octet or lowers the rank. */
    lemma StepGoes(r: Reply, c: Config, next: Option<byte>)
      requires WellFormed() && Ready(c) && Step(r, c, next).Go?
      ensures var Go(to, took) := Step(r, c, next);
        Ready(to) && (took ==> next.Some?) && (!took ==> rank(to.place) < rank(c.place))
    {
    }

    lemma StepEnds(r: Reply, c: Config, next: Option<byte>)
      requires WellFormed() && Ready(c) && !Step(r, c, next).Go?
      ensures match Step(r, c, next)
              case Go(_, _) => true
              case Wait => next.None?
              case Stop(code, _, at) =>
                && Ready(at)
                && (if at.place.Fail? then FailCode(code)
                    else at.pending.None? && (code == HPE_PAUSED || code == HPE_PAUSED_UPGRADE))
    {
    }

    lemma StepReady(r: Reply, c: Config, next: Option<byte>)
      requires WellFormed() && Ready(c)
      ensures match Step(r, c, next)
              case Go(to, took) =>
                && Ready(to)
                && (took ==> next.Some?)
                && (!took ==> rank(to.place) < rank(c.place))
              case Wait => next.None?
              case Stop(code, _, at) =>
                && Ready(at)
                && (if at.place.Fail? then FailCode(code)
                    else at.pending.None? && (code == HPE_PAUSED || code == HPE_PAUSED_UPGRADE))
    {
      hide Step, Ready, WellFormed;
      if Step(r, c, next).Go? {
        StepGoes(r, c, next);
      } else {
        StepEnds(r, c, next);
      }
    }

    // -------------------------------------------------------------- runs

    /** Run `c` over `input` until it is used up or the machine stops. */
    function Run(r: Reply, c: Config, input: seq<byte>): (o: Outcome)
      requires WellFormed() && Ready(c)
      ensures Ready(o.c)
      decreases |input|, rank(c.place)
    {
      StepReady(r, c, Ahead(input));
      match Step(r, c, Ahead(input))
      case Go(to, took) => Run(r, to, if took then input[1..] else input)
      case Wait => Running(c)
      case Stop(code, reason, at) => Stopped(code, reason, at, input)
    }

    /** A run, one step on. */
    lemma RunOn(r: Reply, c: Config, input: seq<byte>)
      requires WellFormed() && Ready(c)
      ensures var m := Step(r, c, Ahead(input));
        && (m.Go? ==> Ready(m.to) && Run(r, c, input) == Run(r, m.to, if m.took then input[1..] else input))
        && (m.Go? && m.took ==> |input| > 0)
        && (m.Go? && !m.took ==> rank(m.to.place) < rank(c.place))
        && (m.Wait? ==> |input| == 0 && Run(r, c, input) == Running(c))
        && (m.Stop? ==> Run(r, c, input) == Stopped(m.code, m.reason, m.at, input))
    {
      StepReady(r, c, Ahead(input));
    }

    /** A run stops with an error of the parser's own or with a pause outside any span, and what it leaves is the end of
        its input. */
    lemma {:induction false} RunStops(r: Reply, c: Config, input: seq<byte>)
      requires WellFormed() && Ready(c)
      ensures var o := Run(r, c, input);
        o.Stopped? ==>
          && |o.rest| <= |input| && o.rest == input[|input| - |o.rest|..]
          && (if o.c.place.Fail? then FailCode(o.code)
              else o.c.pending.None? && (o.code == HPE_PAUSED || o.code == HPE_PAUSED_UPGRADE))
      decreases |input|, rank(c.place)
    {
      RunOn(r, c, input);
      var m := Step(r, c, Ahead(input));
      if m.Go? {
        RunStops(r, m.to, if m.took then input[1..] else input);
      } else {
        StepReady(r, c, Ahead(input));
      }
    }

    /** Go on with more input after a run that took all of its own; a stop leaves the new input behind. */
    function Continue(r: Reply, o: Outcome, more: seq<byte>): Outcome
      requires WellFormed() && Ready(o.c)
    {
      match o
      case Running(c) => Run(r, c, more)
      case Stopped(code, reason, c, rest) => Stopped(code, reason, c, rest + more)
    }

    /** Run over a list of pieces, one after the other. */
    function RunPieces(r: Reply, c: Config, pieces: seq<seq<byte>>): (o: Outcome)
      requires WellFormed() && Ready(c)
      ensures Ready(o.c)
      decreases |pieces|
    {
      if |pieces| == 0 then Running(c)
      else
        match Run(r, c, pieces[0])
        case Running(d) => RunPieces(r, d, pieces[1..])
        case Stopped(code, reason, d, rest) => Stopped(code, reason, d, rest + Flatten(pieces[1..]))
    }

    /** A step taken with no octet ahead is taken whatever comes. */
    lemma StepBlind(r: Reply, c: Config, next: Option<byte>)
      requires WellFormed() && Ready(c)
      requires !Step(r, c, None).Wait?
      ensures Step(r, c, next) == Step(r, c, None)
    {
    }

    /** RunSplit for an empty first piece: the blocks that need no octet run before the next piece arrives. */
    lemma {:induction false} RunSplitEmpty(r: Reply, c: Config, b: seq<byte>)
      requires WellFormed() && Ready(c)
      ensures Run(r, c, b) == Continue(r, Run(r, c, []), b)
      decreases rank(c.place)
    {
      StepReady(r, c, None);
      match Step(r, c, None)
      case Go(to, took) =>
        StepBlind(r, c, Ahead(b));
        RunSplitEmpty(r, to, b);
      case Wait =>
      case Stop(_, _, _) =>
        StepBlind(r, c, Ahead(b));
        assert [] + b == b;
    }

    /** Splitting the input changes nothing: neither the fields, nor the events, nor where an error is found. */
    lemma {:induction false} RunSplit(r: Reply, c: Config, a: seq<byte>, b: seq<byte>)
      requires WellFormed() && Ready(c)
      ensures Run(r, c, a + b) == Continue(r, Run(r, c, a), b)
      decreases |a|, rank(c.place)
    {
      if |a| == 0 {
        assert a + b == b;
        RunSplitEmpty(r, c, b);
      } else {
        StepReady(r, c, Some(a[0]));
        match Step(r, c, Some(a[0]))
        case Go(to, took) =>
          assert (a + b)[1..] == a[1..] + b;
          RunSplit(r, to, if took then a[1..] else a, b);
        case Stop(_, _, _) =>
      }
    }

    /** Any way of cutting the input into one piece or more gives the run over the whole. */
    lemma {:induction false} RunPiecesIsRun(r: Reply, c: Config, pieces: seq<seq<byte>>)
      requires WellFormed() && Ready(c) && |pieces| > 0
      ensures RunPieces(r, c, pieces) == Run(r, c, Flatten(pieces))
      decreases |pieces|
    {
      RunSplit(r, c, pieces[0], Flatten(pieces[1..]));
      var first := Run(r, c, pieces[0]);
      if |pieces| == 1 {
        assert pieces[0] + Flatten(pieces[1..]) == pieces[0];
        if first.Stopped? {
          assert first.rest + Flatten(pieces[1..]) == first.rest;
        }
      } else if first.Running? {
        RunPiecesIsRun(r, first.c, pieces[1..]);
      }
    }

    /** A run over pieces none of which but the last stops it, one piece on. */
    lemma RunFirst(r: Reply, c: Config, pieces: seq<seq<byte>>)
      requires WellFormed() && Ready(c) && |pieces| > 0
      requires RunPieces(r, c, pieces[..|pieces| - 1]).Running?
      ensures if |pieces| == 1 then Run(r, c, Flatten(pieces)) == Run(r, c, pieces[0])
              else
                && Run(r, c, pieces[0]).Running?
                && var d := Run(r, c, pieces[0]).c;
                   && RunPieces(r, d, pieces[1..][..|pieces[1..]| - 1]).Running?
                   && Run(r, c, Flatten(pieces)) == Run(r, d, Flatten(pieces[1..]))
    {
      hide Program.Run, Program.Ready, Program.WellFormed;
      if |pieces| == 1 {
        assert pieces[0] + Flatten(pieces[1..]) == pieces[0];
      } else {
        var most := pieces[..|pieces| - 1];
        assert most[0] == pieces[0] && most[1..] == pieces[1..][..|pieces[1..]| - 1];
        RunSplit(r, c, pieces[0], Flatten(pieces[1..]));
      }
    }

    /** `q` answers as `r` does, except that it may pause where `r` says go on; `r` itself never pauses. */
    ghost predicate PausesMore(q: Reply, r: Reply) {
      forall m, f :: r(m, f) != HPE_PAUSED && (q(m, f) == r(m, f) || (q(m, f) == HPE_PAUSED && r(m, f) == 0))
    }

    /** The two differ in one kind of step: where `q` stops to pause, `r` goes on from there. */
    lemma StepPause(q: Reply, r: Reply, c: Config, next: Option<byte>)
      requires WellFormed() && Ready(c) && PausesMore(q, r)
      ensures var m := Step(q, c, next);
        if m.Stop? && m.code == HPE_PAUSED then Step(r, c, next) == Go(m.at, false) else Step(r, c, next) == m
    {
      if node(c.place).Callback? {
        var mark := node(c.place).mark;
        assert r(mark, c.fields) != HPE_PAUSED;
        assert AnswerOk(c.place, q(mark, c.fields));
        assert AnswerOk(c.place, r(mark, c.fields));
      }
    }

    /** A pause is transparent: resuming over the octets left gives what running without the pause gives. */
    lemma {:induction false} PauseTransparent(q: Reply, r: Reply, c: Config, input: seq<byte>)
      requires WellFormed() && Ready(c) && PausesMore(q, r)
      ensures var o := Run(q, c, input);
        if o.Stopped? && o.code == HPE_PAUSED then Run(r, c, input) == Run(r, o.c, o.rest)
        else Run(r, c, input) == o
      decreases |input|, rank(c.place)
    {
      StepPause(q, r, c, Ahead(input));
      RunOn(q, c, input);
      RunOn(r, c, input);
      var m := Step(q, c, Ahead(input));
      if m.Go? {
        PauseTransparent(q, r, m.to, if m.took then input[1..] else input);
      }
    }
  }
}
