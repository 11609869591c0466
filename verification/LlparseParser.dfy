/** The parser itself: a struct updated in place, working on one caller's buffer at a time with an offset for the
    current octet and an offset for the start of the open span. */
module LlparseParser {
  import opened Bytes
  import opened LlhttpTypes
  import opened Llparse
  import opened LlparseBulk
  import opened LlparseSpans

  /** One callback as the caller receives it: a span arrives in as many Data calls as it took buffers, the last
      of them made by the block that ends the span. */
  datatype Call =
    | Data(kind: SpanKind, octets: seq<byte>, last: bool)
    | Told(mark: Mark, seen: Fields)

  /** What a list of calls amounts to: whole events, and the part of a span heard so far. */
  datatype Heard = Heard(out: seq<Event>, open: Option<Pending>)

  function Hear(h: Heard, call: Call): Heard {
    match call
    case Told(mark, seen) => h.(out := h.out + [Marked(mark, seen)])
    case Data(kind, octets, last) =>
      var whole := Carried(h.open) + octets;
      if last then Heard(h.out + [Span(kind, whole)], None) else h.(open := Some(Pending(kind, whole)))
  }

  function HearAll(calls: seq<Call>): Heard {
    if |calls| == 0 then Heard([], None) else Hear(HearAll(calls[..|calls| - 1]), calls[|calls| - 1])
  }

  lemma HearOneMore(calls: seq<Call>, call: Call)
    ensures HearAll(calls + [call]) == Hear(HearAll(calls), call)
  {
    assert (calls + [call])[..|calls|] == calls;
  }

  /** Calls that make sense to a listener: the parts of one span come in a row and agree on its kind. */
  predicate Paired(calls: seq<Call>) {
    |calls| > 0 ==>
      && Paired(calls[..|calls| - 1])
      && Follows(HearAll(calls[..|calls| - 1]), calls[|calls| - 1])
  }

  predicate Follows(h: Heard, call: Call) {
    h.open.Some? ==> call.Data? && call.kind == h.open.value.kind
  }

  /** More calls, which make sense if those before them do. */
  predicate Grew(before: seq<Call>, after: seq<Call>) {
    before <= after && (Paired(before) ==> Paired(after))
  }

  /** Unless a span has ended, the part of it heard is what it was. */
  predicate Closed(before: seq<Call>, after: seq<Call>) {
    var h, k := HearAll(before), HearAll(after);
    h.out <= k.out && k.open == if k.out == h.out then h.open else None
  }

  lemma GrewByOne(calls: seq<Call>, call: Call)
    requires Follows(HearAll(calls), call)
    ensures Grew(calls, calls + [call])
    ensures call.Told? || call.last ==> Closed(calls, calls + [call])
    ensures HearAll(calls + [call]) == Hear(HearAll(calls), call)
  {
    assert (calls + [call])[..|calls|] == calls;
  }

  datatype MatchStatus = MatchComplete | MatchPause | MatchMismatch

  /** How a block leaves the run loop: on to the next block, or out of input, or out with an error. */
  datatype Exit = Next | Starved | Failed

  /** What a caller knows of a run that ended as `o`, with `open` heard of an open span. */
  ghost predicate Shows(o: Outcome, open: Option<Pending>, place: Label, fields: Fields, calls: seq<Call>, error: int) {
    && place == o.c.place && fields == o.c.fields && HearAll(calls) == Heard(o.c.out, open)
    && error == (if o.Stopped? then o.code else 0)
  }

  class Parser {
    const program: Program
    const reply: Reply
    var place: Label
    var fields: Fields
    var spanPos: int
    var spanKind: SpanKind
    var error: int
    var reason: Reason
    var errorPos: int
    var calls: seq<Call>

    /** The span open in the middle of a buffer: what earlier buffers brought and this buffer's part up to `p`. */
    ghost function OpenAt(data: seq<byte>, p: int): Option<Pending>
      requires -1 <= spanPos <= p <= |data|
      reads this
    {
      if spanPos < 0 then None
      else Some(Pending(spanKind, Carried(HearAll(calls).open) + data[spanPos..p]))
    }

    /** The configuration of the specification that the parser is in, in the middle of a buffer. */
    ghost function At(data: seq<byte>, p: int): Config
      requires -1 <= spanPos <= p <= |data|
      reads this
    {
      Config(place, fields, OpenAt(data, p), HearAll(calls).out)
    }

    /** The configuration between buffers. */
    ghost function Abs(): Config
      reads this
    {
      Config(place, fields, HearAll(calls).open, HearAll(calls).out)
    }

    /** At a block, in the middle of a buffer. */
    ghost predicate Busy(data: seq<byte>, p: int)
      reads this
    {
      program.WellFormed() && error == 0 && Tracked(data, p) && program.Ready(At(data, p))
    }

    ghost predicate Valid()
      reads this
    {
      && program.WellFormed()
      && -1 <= spanPos
      && (place.Fail? ==> FailCode(error))
      && (!place.Fail? ==>
            && program.Ready(Abs())
            && (spanPos >= 0 <==> HearAll(calls).open.Some?)
            && (spanPos >= 0 ==> spanKind == HearAll(calls).open.value.kind))
    }

    /** llhttp_init: all zero, except that the run starts at `start`. */
    constructor (program: Program, typ: nat, reply: Reply)
      requires program.WellFormed()
      requires program.Ready(Initial(typ))
      ensures Valid() && error == 0 && this.program == program && this.reply == reply && calls == []
      ensures Abs() == Initial(typ)
    {
      this.program := program;
      this.reply := reply;
      place := Begin(Start);
      fields := Fields(0, 0, typ, 0, 0, 0, 0, 0, 0, 0, 0);
      spanPos := -1;
      spanKind := NoSpan;
      error := 0;
      reason := NoReason;
      errorPos := -1;
      calls := [];
    }

    /** The span bookkeeping at offset `p`: the open span began in this buffer or was carried into it, and the calls
        heard so far of it name its kind. */
    ghost predicate Tracked(data: seq<byte>, p: int)
      reads this
    {
      && -1 <= spanPos <= p <= |data|
      && (HearAll(calls).open.Some? ==> spanPos >= 0 && HearAll(calls).open.value.kind == spanKind)
    }

    /** A block did what the specification's step `m` from `c` does. */
    ghost predicate DidStep(c: Config, m: Move, data: seq<byte>, p: nat, q: nat, exit: Exit)
      reads this
    {
      && Tracked(data, q)
      && match m
         case Go(to, took) => exit.Next? && q == (if took then p + 1 else p) && error == 0 && At(data, q) == to
         case Wait => exit.Starved? && q == p && error == 0 && At(data, q) == c
         case Stop(code, why, at) =>
           exit.Failed? && q == p && error == code && reason == why && errorPos == q && At(data, q) == at
    }

    /** What a block does to the run, in terms of where the run stood before it. */
    ghost predicate Went(was: Outcome, rank: nat, p: nat, data: seq<byte>, q: nat, exit: Exit)
      requires program.WellFormed()
      reads this
    {
      && Tracked(data, q)
      && match exit
         case Next =>
           && error == 0 && program.Ready(At(data, q)) && program.Run(reply, At(data, q), data[q..]) == was
           && (p < q || (p == q && program.rank(place) < rank))
         case Starved =>
           error == 0 && q == |data| && !place.Fail? && program.Ready(At(data, q)) && was == Running(At(data, q))
         case Failed => errorPos == q && was == Stopped(error, reason, At(data, q), data[q..])
    }

    /** The span_end blocks: hand the caller the octets since the span began, or since this buffer did. */
    method EndSpan(data: seq<byte>, p: nat, kind: SpanKind)
      requires p <= |data| && Busy(data, p) && spanPos >= 0 && kind == spanKind
      modifies `calls, `spanPos
      ensures spanPos == -1 && Grew(old(calls), calls) && Closed(old(calls), calls)
      ensures HearAll(calls) == Heard(old(At(data, p)).out + [Span(kind, old(OpenAt(data, p)).value.octets)], None)
    {
      GrewByOne(calls, Data(kind, data[spanPos..p], true));
      calls := calls + [Data(kind, data[spanPos..p], true)];
      spanPos := -1;
    }

    /** A block that switches on the octet ahead. */
    method PeekBlock(data: seq<byte>, p: nat) returns (q: nat, exit: Exit)
      requires p <= |data| && Busy(data, p) && program.node(place).Peek?
      modifies `place, `calls, `spanPos
      ensures Grew(old(calls), calls) && Closed(old(calls), calls)
      ensures var c := old(At(data, p)); DidStep(c, program.Step(reply, c, Ahead(data[p..])), data, p, q, exit)
    {
      hide Program.Run;
      if p == |data| {
        return p, Starved;
      }
      program.StepReady(reply, At(data, p), Some(data[p]));
      match program.dispatch(place, data[p])
      case Advance(next) =>
        OneMore(data, p);
        place := next;
        return p + 1, Next;
      case Stay(next) =>
        place := next;
        return p, Next;
      case EndAndAdvance(kind, next) =>
        EndSpan(data, p, kind);
        place := next;
        return p + 1, Next;
    }

    /** The open span at `p + 1` is the open span at `p` and one octet. */
    lemma OneMore(data: seq<byte>, p: nat)
      requires p < |data| && -1 <= spanPos <= p
      ensures OpenAt(data, p + 1) == Extend(OpenAt(data, p), [data[p]])
    {
      if spanPos >= 0 {
        var carried := Carried(HearAll(calls).open);
        assert carried + data[spanPos..p + 1] == carried + data[spanPos..p] + [data[p]];
      }
    }

    /** The open span at `q` is the open span at `p` and the octets between. */
    lemma ManyMore(data: seq<byte>, p: nat, q: nat)
      requires p <= q <= |data| && -1 <= spanPos <= p
      ensures OpenAt(data, q) == Extend(OpenAt(data, p), data[p..q])
    {
      if spanPos >= 0 {
        var carried := Carried(HearAll(calls).open);
        assert carried + data[spanPos..q] == carried + data[spanPos..p] + data[p..q];
      }
    }

    /** llparse__match_sequence_id and llparse__match_sequence_to_lower_unsafe: compare octets with the rest of the
        word, saving the index when the buffer ends first. */
    method MatchSequence(data: seq<byte>, p: nat, word: seq<byte>, lower: bool) returns (status: MatchStatus, q: nat)
      requires p <= |data| && fields.index < |word|
      modifies `fields
      ensures p <= q <= |data|
      ensures MatchesFrom(word, lower, old(fields.index), data[p..q])
      ensures fields == old(fields).(index := if status.MatchPause? then old(fields.index) + q - p else 0)
      ensures match status
              case MatchPause => q == |data|
              case MatchComplete =>
                q < |data| && old(fields.index) + q - p + 1 == |word| && Fold(data[q], lower) == word[|word| - 1]
              case MatchMismatch => q < |data| && Fold(data[q], lower) != word[old(fields.index) + q - p]
    {
      var index := fields.index;
      q := p;
      while q < |data|
        invariant p <= q <= |data|
        invariant index == old(fields.index) + q - p
        invariant MatchesFrom(word, lower, old(fields.index), data[p..q])
        invariant fields == old(fields)
      {
        if Fold(data[q], lower) != word[index] {
          fields := fields.(index := 0);
          return MatchMismatch, q;
        }
        index := index + 1;
        if index == |word| {
          fields := fields.(index := 0);
          return MatchComplete, q;
        }
        assert data[p..q + 1] == data[p..q] + [data[q]];
        q := q + 1;
      }
      fields := fields.(index := index);
      return MatchPause, q;
    }

    /** A block that matches the rest of a word: agreeing octets up to `s`, then one step more. */
    method MatchBlock(data: seq<byte>, p: nat) returns (q: nat, exit: Exit, ghost s: nat)
      requires p <= |data| && Busy(data, p) && program.node(place).Match?
      modifies `place, `fields
      ensures p <= s <= |data|
      ensures var c := old(At(data, p)); var n := program.node(c.place);
        && MatchesFrom(program.word(n.blob), n.lower, c.fields.index, data[p..s])
        && var d := Later(c, c.fields.(index := c.fields.index + s - p), data[p..s]);
           program.Ready(d) && DidStep(d, program.Step(reply, d, Ahead(data[s..])), data, s, q, exit)
    {
      if p == |data| {
        ExtendNothing(At(data, p).pending);
        return p, Starved, p;
      }
      var n := program.node(place);
      var status;
      status, q := MatchSequence(data, p, program.word(n.blob), n.lower);
      s := q;
      ManyMore(data, p, q);
      match status
      case MatchPause =>
        exit := Starved;
      case MatchComplete =>
        OneMore(data, q);
        place := n.hit;
        q := q + 1;
        exit := Next;
      case MatchMismatch =>
        place := n.miss;
        exit := Next;
    }

    /** The blocks that take contentLength octets, as many as the buffer has: octets up to `s`, then one step more. */
    method ConsumeBlock(data: seq<byte>, p: nat) returns (q: nat, exit: Exit)
      requires p <= |data| && Busy(data, p) && program.node(place).Consume?
      modifies `place, `fields
      ensures p <= q <= |data|
      ensures var c := old(At(data, p));
        && q - p <= c.fields.contentLength
        && var d := Later(c, c.fields.(contentLength := c.fields.contentLength - (q - p)), data[p..q]);
           program.Ready(d) && DidStep(d, program.Step(reply, d, Ahead(data[q..])), data, q, q, exit)
    {
      var avail := |data| - p;
      var need := fields.contentLength;
      if avail >= need {
        q := p + need;
        ManyMore(data, p, q);
        fields := fields.(contentLength := 0);
        place := program.node(place).done;
        return q, Next;
      }
      q := p + avail;
      ManyMore(data, p, q);
      fields := fields.(contentLength := need - avail);
      return q, Starved;
    }

    /** The blocks that open and close a span. */
    method SpanBlock(data: seq<byte>, p: nat) returns (q: nat, exit: Exit)
      requires p <= |data| && Busy(data, p)
      requires program.node(place).SpanStart? || program.node(place).SpanEnd?
      modifies `place, `calls, `spanPos, `spanKind
      ensures Grew(old(calls), calls) && Closed(old(calls), calls)
      ensures var c := old(At(data, p)); DidStep(c, program.Step(reply, c, Ahead(data[p..])), data, p, q, exit)
    {
      match program.node(place)
      case SpanStart(kind, next) =>
        if p == |data| {
          return p, Starved;
        }
        assert OpenAt(data, p).None?;
        spanPos := p;
        spanKind := kind;
        place := next;
        assert Carried(HearAll(calls).open) + data[p..p] == [];
        return p, Next;
      case SpanEnd(kind, next) =>
        EndSpan(data, p, kind);
        place := next;
        return p, Next;
    }

    /** Stop with an error, or a pause, at `p`. */
    method Fail(code: int, why: Reason, p: nat, at: Label)
      modifies `error, `reason, `errorPos, `place
      ensures error == code && reason == why && errorPos == p && place == at
    {
      error := code;
      reason := why;
      errorPos := p;
      place := at;
    }

    /** Ask the caller. */
    method CallBlock(data: seq<byte>, p: nat) returns (exit: Exit)
      requires p <= |data| && Busy(data, p) && program.node(place).Callback?
      modifies `place, `calls, `error, `reason, `errorPos
      ensures Grew(old(calls), calls) && Closed(old(calls), calls)
      ensures var c := old(At(data, p)); DidStep(c, program.Step(reply, c, Ahead(data[p..])), data, p, p, exit)
    {
      var n := program.node(place);
      GrewByOne(calls, Told(n.mark, fields));
      calls := calls + [Told(n.mark, fields)];
      var answer := reply(n.mark, fields);
      match program.answered(place, answer)
      case Some(to) =>
        place := to;
        exit := Next;
      case None =>
        if answer == HPE_PAUSED {
          Fail(HPE_PAUSED, n.pauseReason, p, n.next);
        } else {
          Fail(n.failCode, n.failReason, p, Label.Fail(n.failCode, n.failReason));
        }
        exit := Failed;
    }

    /** The blocks that look at no octet and ask nobody. */
    method InvokeBlock(data: seq<byte>, p: nat) returns (exit: Exit)
      requires p <= |data| && Busy(data, p)
      requires program.node(place).Invoke? || program.node(place).Pause? || program.node(place).Halt?
      modifies `place, `fields, `error, `reason, `errorPos
      ensures var c := old(At(data, p)); DidStep(c, program.Step(reply, c, Ahead(data[p..])), data, p, p, exit)
    {
      match program.node(place)
      case Invoke =>
        var (f, to) := program.invoke(place, fields);
        fields := f;
        place := to;
        exit := Next;
      case Pause(code, why, next) =>
        Fail(code, why, p, next);
        exit := Failed;
      case Halt(code, why) =>
        Fail(code, why, p, place);
        exit := Failed;
    }

    /** A step taken is a stretch of the run gone. */
    lemma StepWent(goal: Outcome, c: Config, data: seq<byte>, p: nat, q: nat, exit: Exit, s: nat, rank: nat)
      requires program.WellFormed() && program.Ready(c) && p <= s <= |data|
      requires p == s ==> program.rank(c.place) <= rank
      requires program.Run(reply, c, data[s..]) == goal
      requires DidStep(c, program.Step(reply, c, Ahead(data[s..])), data, s, q, exit)
      ensures p <= q && Went(goal, rank, p, data, q, exit)
    {
      Stepped(program, reply, c, data, s);
    }

    lemma MatchWent(goal: Outcome, c: Config, data: seq<byte>, p: nat, q: nat, exit: Exit, s: nat)
      requires program.WellFormed() && program.Ready(c) && p <= s <= |data| && program.node(c.place).Match?
      requires program.Run(reply, c, data[p..]) == goal
      requires var n := program.node(c.place); MatchesFrom(program.word(n.blob), n.lower, c.fields.index, data[p..s])
      requires var d := Later(c, c.fields.(index := c.fields.index + s - p), data[p..s]);
        program.Ready(d) && DidStep(d, program.Step(reply, d, Ahead(data[s..])), data, s, q, exit)
      ensures p <= q && Went(goal, program.rank(c.place), p, data, q, exit)
    {
      hide DidStep, Went, MatchesFrom, Program.Run, Program.Step;
      assert data[p..][..s - p] == data[p..s] && data[p..][s - p..] == data[s..] && data[p..][0..] == data[p..];
      MatchRun(program, reply, c, data[p..], s - p);
      var d := Later(c, c.fields.(index := c.fields.index + s - p), data[p..s]);
      StepWent(goal, d, data, p, q, exit, s, program.rank(c.place));
    }

    lemma ConsumeWent(goal: Outcome, c: Config, data: seq<byte>, p: nat, q: nat, exit: Exit)
      requires program.WellFormed() && program.Ready(c) && p <= q <= |data| && program.node(c.place).Consume?
      requires program.Run(reply, c, data[p..]) == goal
      requires q - p <= c.fields.contentLength
      requires var d := Later(c, c.fields.(contentLength := c.fields.contentLength - (q - p)), data[p..q]);
        program.Ready(d) && DidStep(d, program.Step(reply, d, Ahead(data[q..])), data, q, q, exit)
      ensures Went(goal, program.rank(c.place), p, data, q, exit)
    {
      assert data[p..][..q - p] == data[p..q] && data[p..][q - p..] == data[q..] && data[p..][0..] == data[p..];
      ConsumeRun(program, reply, c, data[p..], q - p);
      var d := Later(c, c.fields.(contentLength := c.fields.contentLength - (q - p)), data[p..q]);
      StepWent(goal, d, data, p, q, exit, q, program.rank(c.place));
    }

    method RunMatch(data: seq<byte>, p: nat, ghost goal: Outcome) returns (q: nat, exit: Exit)
      requires p <= |data| && Busy(data, p) && program.node(place).Match?
      requires program.Run(reply, At(data, p), data[p..]) == goal
      modifies `place, `fields
      ensures p <= q && program.WellFormed() && Went(goal, old(program.rank(place)), p, data, q, exit)
    {
      ghost var c := At(data, p);
      ghost var s;
      q, exit, s := MatchBlock(data, p);
      MatchWent(goal, c, data, p, q, exit, s);
    }

    method RunConsume(data: seq<byte>, p: nat, ghost goal: Outcome) returns (q: nat, exit: Exit)
      requires p <= |data| && Busy(data, p) && program.node(place).Consume?
      requires program.Run(reply, At(data, p), data[p..]) == goal
      modifies `place, `fields
      ensures p <= q && program.WellFormed() && Went(goal, old(program.rank(place)), p, data, q, exit)
    {
      ghost var c := At(data, p);
      q, exit := ConsumeBlock(data, p);
      ConsumeWent(goal, c, data, p, q, exit);
    }

    /** One block of llhttp__internal__run; `goal` is how the run that stands here ends. */
    method Block(data: seq<byte>, p: nat, ghost goal: Outcome) returns (q: nat, exit: Exit)
      requires p <= |data| && Busy(data, p)
      requires program.Run(reply, At(data, p), data[p..]) == goal
      modifies this
      ensures Grew(old(calls), calls) && Closed(old(calls), calls)
      ensures p <= q && program.WellFormed() && Went(goal, old(program.rank(place)), p, data, q, exit)
    {
      hide DidStep, Went, Program.Run, Program.Step, Program.Ready, Program.WellFormed, MatchesFrom;
      ghost var c := At(data, p);
      match program.node(place) {
        case Match(_, _, _, _) => q, exit := RunMatch(data, p, goal);
        case Consume(_) => q, exit := RunConsume(data, p, goal);
        case _ =>
          q, exit := StepBlock(data, p);
          StepWent(goal, c, data, p, q, exit, p, program.rank(c.place));
      }
    }

    /** The blocks that take one octet at most. */
    method StepBlock(data: seq<byte>, p: nat) returns (q: nat, exit: Exit)
      requires p <= |data| && Busy(data, p) && !program.node(place).Match? && !program.node(place).Consume?
      modifies this
      ensures Grew(old(calls), calls) && Closed(old(calls), calls)
      ensures var c := old(At(data, p)); DidStep(c, program.Step(reply, c, Ahead(data[p..])), data, p, q, exit)
    {
      q := p;
      match program.node(place)
      case Peek => q, exit := PeekBlock(data, p);
      case SpanStart(_, _) | SpanEnd(_, _) => q, exit := SpanBlock(data, p);
      case Callback(_, _, _, _, _) => exit := CallBlock(data, p);
      case Invoke | Pause(_, _, _) | Halt(_, _) => exit := InvokeBlock(data, p);
    }

    /** The parser stands where a run over a buffer of `n` octets ended that began at `was`: between two buffers with
        every callback made, or stopped with the position of the first octet not taken, and without the part of an open
        span that this buffer brought. */
    ghost predicate Executed(was: Config, o: Outcome, n: nat)
      reads this
    {
      HearAll(calls).open == OpenHeard(was, o) &&
      match o
      case Running(c) => error == 0 && Abs() == c
      case Stopped(stop, why, c, rest) =>
        && error == stop && reason == why && errorPos == n - |rest|
        && place == c.place && fields == c.fields && HearAll(calls).out == c.out
        && (!place.Fail? ==> Abs() == c)
    }

    /** llhttp__internal__run: block after block. */
    method RunBlocks(data: seq<byte>) returns (p: nat, exit: Exit)
      requires Busy(data, 0)
      modifies this
      ensures !exit.Next? && Grew(old(calls), calls) && Closed(old(calls), calls)
      ensures program.WellFormed() && program.Ready(old(At(data, 0)))
      ensures Went(program.Run(reply, old(At(data, 0)), data), 0, 0, data, p, exit)
    {
      ghost var goal := program.Run(reply, At(data, 0), data);
      assert data[0..] == data;
      p := 0;
      exit := Next;
      while exit == Next
        invariant program.WellFormed() && Grew(old(calls), calls) && Closed(old(calls), calls)
        invariant Went(goal, program.rank(place) + 1, p, data, p, exit)
        decreases exit.Next?, |data| - p, program.rank(place)
      {
        p, exit := Block(data, p, goal);
      }
    }

    /** llhttp__internal_execute: run over one buffer, as the specification does. */
    method Execute(data: seq<byte>) returns (code: int)
      requires Valid()
      modifies this
      ensures Valid() && code == error && Grew(old(calls), calls)
      ensures old(error) != 0 ==>
        && error == old(error) && reason == old(reason) && errorPos == old(errorPos)
        && Abs() == old(Abs()) && calls == old(calls)
      ensures old(error) == 0 ==> 
        program.Ready(old(Abs())) && Executed(old(Abs()), program.Run(reply, old(Abs()), data), |data|)
    {
      if error != 0 {
        return error;
      }
      Restart(data);
      program.RunStops(reply, At(data, 0), data);
      var p, exit := RunBlocks(data);
      if exit == Failed {
        return error;
      }
      Flush(data);
      return 0;
    }

    /** The parser is behind buffers over which the run ended as `o`. */
    ghost predicate Stands(o: Outcome, open: Option<Pending>)
      reads this
    {
      Shows(o, open, place, fields, calls, error) && if o.Running? then Abs() == o.c else error != 0
    }

    /** The parser is behind these buffers, of which it took so many octets. */
    ghost predicate Fed(c: Config, pieces: seq<seq<byte>>, taken: int)
      requires program.WellFormed() && program.Ready(c)
      reads this
    {
      var o := program.RunPieces(reply, c, pieces);
      && Stands(o, OpenOver(program, reply, c, pieces))
      && taken == |Flatten(pieces)| - if o.Stopped? then |o.rest| else 0
    }

    /** One buffer more, and how many octets of it were taken. */
    method ExecuteMore(data: seq<byte>, ghost o: Outcome, ghost open: Option<Pending>) returns (taken: nat)
      requires Valid() && program.Ready(o.c) && Stands(o, open)
      modifies this
      ensures Valid() && Grew(old(calls), calls)
      ensures o.Running? ==>
        var next := program.Run(reply, o.c, data);
        Stands(next, OpenHeard(o.c, next)) && taken == |data| - if next.Stopped? then |next.rest| else 0
      ensures o.Stopped? ==> Stands(o, open) && taken == 0
    {
      if error != 0 {
        var code := Execute(data);
        return 0;
      }
      program.RunStops(reply, o.c, data);
      var code := Execute(data);
      taken := if code == 0 then |data| else errorPos;
    }

    /** The next of a list of buffers. */
    method ExecuteNext(data: seq<byte>, ghost c: Config, ghost pieces: seq<seq<byte>>, ghost before: int)
      returns (taken: nat)
      requires Valid() && program.Ready(c) && Fed(c, pieces, before)
      modifies this
      ensures Valid() && Grew(old(calls), calls) && Fed(c, pieces + [data], before + taken)
    {
      FlattenMore(pieces, data);
      PiecesMore(program, reply, c, pieces, data);
      taken := ExecuteMore(data, program.RunPieces(reply, c, pieces), OpenOver(program, reply, c, pieces));
    }

    /** Restart spans: the open span goes on at the start of the new buffer. */
    method Restart(data: seq<byte>)
      requires Valid() && error == 0
      modifies `spanPos
      ensures Busy(data, 0) && At(data, 0) == old(Abs())
    {
      assert data[0..0] == [];
      ExtendNothing(HearAll(calls).open);
      if spanPos >= 0 {
        spanPos := 0;
      }
    }

    /** Execute spans: hand over the open span's part of the buffer. */
    method Flush(data: seq<byte>)
      requires Busy(data, |data|) && !place.Fail?
      modifies `calls
      ensures Valid() && Abs() == old(At(data, |data|)) && Grew(old(calls), calls)
    {
      if spanPos >= 0 {
        assert data[spanPos..] == data[spanPos..|data|];
        GrewByOne(calls, Data(spanKind, data[spanPos..], false));
        calls := calls + [Data(spanKind, data[spanPos..], false)];
      }
    }

    /** llhttp_finish: the input has ended. A body that runs to the end of the connection is complete; an unfinished
        message is an error, reported without entering the error state. */
    method Finish() returns (code: int)
      requires Valid()
      modifies `reason, `calls
      ensures Valid() && Abs() == old(Abs()).(out := Abs().out)
      ensures error != 0 || fields.finish != 1 ==> calls == old(calls)
      ensures error == 0 && fields.finish == 1 ==>
        calls == old(calls) + [Told(MessageComplete, fields)] && code == reply(MessageComplete, fields)
      ensures error != 0 || fields.finish == 0 ==> code == 0
      ensures error == 0 && !place.Fail? && fields.finish == 2 ==>
        code == HPE_INVALID_EOF_STATE && reason == InvalidEofState
    {
      if error != 0 {
        return 0;
      }
      if fields.finish == 1 {
        HearOneMore(calls, Told(MessageComplete, fields));
        calls := calls + [Told(MessageComplete, fields)];
        code := reply(MessageComplete, fields);
      } else if fields.finish == 0 {
        code := 0;
      } else {
        assert fields.finish == 2;
        reason := InvalidEofState;
        code := HPE_INVALID_EOF_STATE;
      }
    }

    /** llhttp_pause. */
    method PauseNow()
      requires Valid()
      modifies `error, `reason
      ensures Valid() && Abs() == old(Abs())
      ensures if old(error) != 0 then error == old(error) && reason == old(reason)
              else error == HPE_PAUSED && reason == Paused
    {
      if error == 0 {
        error := HPE_PAUSED;
        reason := Paused;
      }
    }

    /** llhttp_resume. */
    method Resume()
      requires Valid()
      modifies `error
      ensures Valid() && Abs() == old(Abs())
      ensures error == if old(error) == HPE_PAUSED then 0 else old(error)
    {
      if error == HPE_PAUSED {
        error := 0;
      }
    }

    /** llhttp_resume_after_upgrade. */
    method ResumeAfterUpgrade()
      requires Valid()
      modifies `error
      ensures Valid() && Abs() == old(Abs())
      ensures error == if old(error) == HPE_PAUSED_UPGRADE then 0 else old(error)
    {
      if error == HPE_PAUSED_UPGRADE {
        error := 0;
      }
    }
  }

  // ---------------------------------------------------------------- any number of buffers

  /** A new parser fed any number of buffers, whatever it answers: the callbacks tell, and the fields, the error code and
      the position of the error are, what one run over all the octets gives; but of a span open at an error they tell
      what OpenOver says. */
  method ExecuteAll(program: Program, typ: nat, reply: Reply, pieces: seq<seq<byte>>)
    returns (place: Label, fields: Fields, calls: seq<Call>, error: int, taken: nat)
    requires program.WellFormed() && |pieces| > 0
    requires program.Ready(Initial(typ))
    ensures Paired(calls)
    ensures var o := program.Run(reply, Initial(typ), Flatten(pieces));
      && Shows(o, OpenOver(program, reply, Initial(typ), pieces), place, fields, calls, error)
      && taken == |Flatten(pieces)| - if o.Stopped? then |o.rest| else 0
  {
    hide Program.Run, Program.Ready, Program.WellFormed;
    ghost var c := Initial(typ);
    var parser := new Parser(program, typ, reply);
    taken := 0;
    var i := 0;
    while i < |pieces|
      invariant 0 <= i <= |pieces| && fresh(parser) && parser.Valid() && Paired(parser.calls)
      invariant parser.program == program && parser.reply == reply
      invariant parser.Fed(c, pieces[..i], taken)
    {
      assert pieces[..i + 1] == pieces[..i] + [pieces[i]];
      var more := parser.ExecuteNext(pieces[i], c, pieces[..i], taken);
      taken := taken + more;
      i := i + 1;
    }
    assert pieces[..i] == pieces;
    program.RunPiecesIsRun(reply, c, pieces);
    place, fields, calls, error := parser.place, parser.fields, parser.calls, parser.error;
  }
}
