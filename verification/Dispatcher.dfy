/** The inspector's incoming messages: posted by any thread, handled on the foreground thread by a dispatcher that can be
    entered again from inside the handling of a message. */
module Dispatcher {
  import opened Bytes

  datatype Message = Message(session: int, text: string)

  const TAG_CONNECT := "#connect"
  const TAG_DISCONNECT := "#disconnect"

  // ---------------------------------------------------------------- one message

  datatype Stage = New | Accepting | Connected | Done

  /** The connection state; `aborted` once a CHECK_EQ has failed or a message has met no session. */
  datatype Control = Control(stage: Stage, sessionId: int, session: bool, shuttingDown: bool, aborted: bool)

  function Handle(c: Control, m: Message): Control {
    if m.text == TAG_CONNECT then
      if c.stage != Accepting then c.(aborted := true)
      else c.(stage := Connected, sessionId := m.session, session := true)
    else if m.text == TAG_DISCONNECT then
      if c.stage != Connected then c.(aborted := true)
      else c.(stage := if c.shuttingDown then Done else Accepting, session := false)
    else if !c.session then c.(aborted := true)
    else c
  }

  /** Whether a session is open after a trace of well-bracketed sessions; None for other traces. */
  function Bracketed(trace: seq<Message>): Option<bool> {
    if |trace| == 0 then Some(false)
    else
      var open := Bracketed(trace[..|trace| - 1]);
      var m := trace[|trace| - 1];
      if open.None? then None
      else if m.text == TAG_CONNECT then if open.value then None else Some(true)
      else if m.text == TAG_DISCONNECT then if open.value then Some(false) else None
      else if open.value then open else None
  }

  /** The connection state fits the messages handled so far. */
  predicate Fits(c: Control, handled: seq<Message>) {
    && Bracketed(handled).Some? && !c.aborted
    && (c.stage == Connected <==> Bracketed(handled).value)
    && (c.session <==> Bracketed(handled).value)
    && (!Bracketed(handled).value ==> c.stage == Accepting || (c.stage == Done && c.shuttingDown))
  }

  lemma {:induction false} BracketedPrefix(trace: seq<Message>, k: nat)
    requires k <= |trace| && Bracketed(trace).Some?
    ensures Bracketed(trace[..k]).Some?
    decreases |trace|
  {
    if k < |trace| {
      var init := trace[..|trace| - 1];
      BracketedPrefix(init, k);
      assert init[..k] == trace[..k];
    } else {
      assert trace[..k] == trace;
    }
  }

  /** Handling the next message of a well-bracketed trace fails in one case: it opens a session after the last one was
      closed by a shutdown. */
  lemma HandleFits(c: Control, handled: seq<Message>, m: Message)
    requires Fits(c, handled) && Bracketed(handled + [m]).Some?
    ensures Handle(c, m).aborted <==> c.stage == Done
    ensures !Handle(c, m).aborted ==> Fits(Handle(c, m), handled + [m])
  {
    assert (handled + [m])[..|handled|] == handled;
  }

  // ---------------------------------------------------------------- steps

  /** Where DispatchMessages stands on the foreground thread. */
  datatype Phase =
    | Outside
    /** About to swap the queue with an empty batch. */
    | AtSwap
    /** The batch swapped out, of which the first `next` messages are handled. */
    | InBatch(batch: seq<Message>, next: nat)

  /** The agent, the threads inside PostIncomingMessage (each knowing whether it found the queue empty), the dispatch
      tasks waiting to run, and what has happened. */
  datatype Agent = Agent(
    incoming: seq<Message>,
    dispatching: bool,
    phase: Phase,
    scheduled: nat,
    posters: map<nat, bool>,
    control: Control,
    posted: seq<Message>,
    handled: seq<Message>)

  const START: Agent :=
    Agent([], false, Outside, 0, map[], Control(Accepting, 0, false, false, false), [], [])

  datatype Step =
    /** Thread `t` appends a message under the lock. */
    | Post(t: nat, message: Message)
    /** Thread `t` goes on: it schedules a dispatch if it found the queue empty. */
    | Schedule(t: nat)
    /** The foreground thread runs a scheduled dispatch. */
    | RunTask
    /** It calls DispatchMessages for another reason: an interrupt, or the loop of a pause. */
    | Interrupt
    | Swap
    | HandleNext
    /** The end of a batch: once more round the loop, or out. */
    | EndBatch
    /** WaitForDisconnect, while connected. */
    | ShutDown

  /** The foreground thread can call DispatchMessages: outside it, or inside the handling of a message. */
  predicate CanEnter(s: Agent) {
    s.phase.Outside? || (s.phase.InBatch? && s.phase.next < |s.phase.batch|)
  }

  predicate Enabled(s: Agent, a: Step) {
    && !s.control.aborted
    && match a
       case Post(t, _) => t !in s.posters
       case Schedule(t) => t in s.posters
       case RunTask => s.scheduled > 0 && CanEnter(s)
       case Interrupt => CanEnter(s)
       case Swap => s.phase.AtSwap?
       case HandleNext => s.phase.InBatch? && s.phase.next < |s.phase.batch|
       case EndBatch => s.phase.InBatch? && s.phase.next == |s.phase.batch|
       case ShutDown => s.control.stage == Connected && CanEnter(s)
  }

  /** The head of DispatchMessages. */
  function Enter(s: Agent): Agent {
    if s.dispatching then s else s.(dispatching := true, phase := AtSwap)
  }

  function Do(s: Agent, a: Step): Agent
    requires Enabled(s, a)
  {
    match a
    case Post(t, m) =>
      s.(incoming := s.incoming + [m], posted := s.posted + [m], posters := s.posters[t := s.incoming == []])
    case Schedule(t) => s.(scheduled := s.scheduled + (if s.posters[t] then 1 else 0), posters := s.posters - {t})
    case RunTask => Enter(s.(scheduled := s.scheduled - 1))
    case Interrupt => Enter(s)
    case Swap => s.(incoming := [], phase := InBatch(s.incoming, 0))
    case HandleNext =>
      var m := s.phase.batch[s.phase.next];
      s.(phase := s.phase.(next := s.phase.next + 1), control := Handle(s.control, m), handled := s.handled + [m])
    case EndBatch => if s.phase.batch == [] then s.(dispatching := false, phase := Outside) else s.(phase := AtSwap)
    case ShutDown => s.(control := s.control.(shuttingDown := true))
  }

  predicate Runs(s: Agent, run: seq<Step>)
    decreases |run|
  {
    |run| > 0 ==> Enabled(s, run[0]) && Runs(Do(s, run[0]), run[1..])
  }

  function After(s: Agent, run: seq<Step>): Agent
    requires Runs(s, run)
    decreases |run|
  {
    if |run| == 0 then s else After(Do(s, run[0]), run[1..])
  }

  lemma {:induction false} Joined(s: Agent, run: seq<Step>, more: seq<Step>)
    requires Runs(s, run)
    ensures Runs(s, run + more) <==> Runs(After(s, run), more)
    ensures Runs(s, run + more) ==> After(s, run + more) == After(After(s, run), more)
    decreases |run|
  {
    if |run| == 0 {
      assert run + more == more;
    } else {
      assert (run + more)[1..] == run[1..] + more;
      Joined(Do(s, run[0]), run[1..], more);
    }
  }

  lemma OneMore(s: Agent, run: seq<Step>, a: Step)
    requires Runs(s, run) && Enabled(After(s, run), a)
    ensures Runs(s, run + [a]) && After(s, run + [a]) == Do(After(s, run), a)
  {
    assert [a][1..] == [];
    Joined(s, run, [a]);
  }

  lemma {:induction false} FirstPart(s: Agent, run: seq<Step>, n: nat)
    requires Runs(s, run) && n <= |run|
    ensures Runs(s, run[..n]) && Runs(After(s, run[..n]), run[n..])
    ensures After(s, run) == After(After(s, run[..n]), run[n..])
    decreases n
  {
    if n > 0 {
      FirstPart(Do(s, run[0]), run[1..], n - 1);
      assert run[..n][1..] == run[1..][..n - 1] && run[1..][n - 1..] == run[n..];
    } else {
      assert run[..0] == [] && run[0..] == run;
    }
  }

  lemma LastStep(s: Agent, run: seq<Step>)
    requires Runs(s, run) && |run| > 0
    ensures var n := |run| - 1;
      Runs(s, run[..n]) && Enabled(After(s, run[..n]), run[n]) && After(s, run) == Do(After(s, run[..n]), run[n])
  {
    var n := |run| - 1;
    FirstPart(s, run, n);
    assert run[n..] == [run[n]] && [run[n]][1..] == [];
  }

  // ---------------------------------------------------------------- the invariant

  function Batch(s: Agent): seq<Message> {
    if s.phase.InBatch? && s.phase.next <= |s.phase.batch| then s.phase.batch[s.phase.next..] else []
  }

  /** The dispatcher will swap again before it leaves. */
  predicate WillSwap(s: Agent) {
    s.phase.AtSwap? || (s.phase.InBatch? && s.phase.batch != [])
  }

  /** Someone will see to the queue. */
  ghost predicate Attended(s: Agent) {
    s.scheduled > 0 || WillSwap(s) || exists t :: t in s.posters && s.posters[t]
  }

  ghost predicate Inv(s: Agent) {
    && (s.dispatching <==> !s.phase.Outside?)
    && (s.phase.InBatch? ==> s.phase.next <= |s.phase.batch|)
    && s.posted == s.handled + Batch(s) + s.incoming
    && (s.incoming != [] ==> Attended(s))
  }

  lemma StepKeeps(s: Agent, a: Step)
    requires Inv(s) && Enabled(s, a)
    ensures Inv(Do(s, a))
  {
    match a
    case Post(t, m) =>
      Regroup(s.handled + Batch(s), s.incoming, [m]);
      if s.incoming == [] {
        assert Do(s, a).posters[t];
      } else if exists u :: u in s.posters && s.posters[u] {
        var u :| u in s.posters && s.posters[u];
        assert Do(s, a).posters[u];
      }
    case Schedule(t) =>
      if !s.posters[t] && exists u :: u in s.posters && s.posters[u] {
        var u :| u in s.posters && s.posters[u];
        assert Do(s, a).posters[u];
      }
    case RunTask =>
    case Interrupt =>
    case Swap =>
      assert s.handled + [] + s.incoming == s.handled + s.incoming + [];
    case HandleNext =>
      var rest := Batch(s);
      assert rest == [rest[0]] + Batch(Do(s, a));
      Regroup(s.handled, [rest[0]], Batch(Do(s, a)));
    case EndBatch =>
    case ShutDown =>
  }

  lemma {:induction false} Always(s: Agent, run: seq<Step>)
    requires Inv(s) && Runs(s, run)
    ensures Inv(After(s, run))
    decreases |run|
  {
    if |run| > 0 {
      StepKeeps(s, run[0]);
      Always(Do(s, run[0]), run[1..]);
    }
  }

  /** `posted` only grows, and it is all `control` depends on. */
  lemma {:induction false} PostedGrows(s: Agent, run: seq<Step>)
    requires Runs(s, run)
    ensures s.posted <= After(s, run).posted
    decreases |run|
  {
    if |run| > 0 {
      PostedGrows(Do(s, run[0]), run[1..]);
    }
  }

  /** The only way to fail on a well-bracketed trace: a session after the shutdown. */
  ghost predicate InOrder(s: Agent) {
    if s.control.aborted then s.control.stage == Done && s.control.shuttingDown else Fits(s.control, s.handled)
  }

  lemma OrderKept(s: Agent, a: Step)
    requires Inv(s) && Enabled(s, a) && InOrder(s) && Bracketed(Do(s, a).posted).Some?
    ensures InOrder(Do(s, a))
  {
    if a.HandleNext? {
      var s' := Do(s, a);
      StepKeeps(s, a);
      BracketedPrefix(s'.posted, |s'.handled|);
      assert s'.posted[..|s'.handled|] == s'.handled;
      HandleFits(s.control, s.handled, s.phase.batch[s.phase.next]);
    }
  }

  lemma {:induction false} AlwaysInOrder(s: Agent, run: seq<Step>)
    requires Inv(s) && InOrder(s) && Runs(s, run) && Bracketed(After(s, run).posted).Some?
    ensures InOrder(After(s, run))
    decreases |run|
  {
    if |run| > 0 {
      var next := Do(s, run[0]);
      PostedGrows(next, run[1..]);
      BracketedPrefix(After(s, run).posted, |next.posted|);
      assert After(s, run).posted[..|next.posted|] == next.posted;
      StepKeeps(s, run[0]);
      OrderKept(s, run[0]);
      AlwaysInOrder(next, run[1..]);
    }
  }

  // ---------------------------------------------------------------- main results

  /** In every interleaving: the messages posted are those handled, the rest of the batch and the queue, in order; and a
      queue that is not empty is attended to: a dispatch is scheduled, a poster is about to schedule one, or the
      dispatcher will swap again. */
  lemma NothingStranded(run: seq<Step>)
    requires Runs(START, run)
    ensures var s := After(START, run);
      s.posted == s.handled + Batch(s) + s.incoming && (s.incoming != [] ==> Attended(s))
  {
    Always(START, run);
  }

  // ---------------------------------------------------------------- a session behind a shutdown

  /** How many messages a run handles. */
  function Count(run: seq<Step>): nat {
    if |run| == 0 then 0 else Count(run[..|run| - 1]) + if run[|run| - 1].HandleNext? then 1 else 0
  }

  lemma {:induction false} CountPart(run: seq<Step>, i: nat)
    requires i <= |run|
    ensures Count(run[..i]) <= Count(run)
    decreases |run|
  {
    if i < |run| {
      CountPart(run[..|run| - 1], i);
      assert run[..|run| - 1][..i] == run[..i];
    } else {
      assert run[..i] == run;
    }
  }

  /** Message `d` closes a session, and is handled behind a shutdown. */
  ghost predicate ClosesLast(run: seq<Step>, handled: seq<Message>, d: nat) {
    && d < |handled| && handled[d].text == TAG_DISCONNECT
    && exists i {:trigger run[i]} | 0 <= i < |run| :: run[i].ShutDown? && Count(run[..i]) <= d
  }

  /** A session is opened behind the one that a shutdown waits for. */
  ghost predicate Reopened(run: seq<Step>, handled: seq<Message>) {
    exists d: nat, j {:trigger ClosesLast(run, handled, d), handled[j]} | d < j < |handled| ::
      ClosesLast(run, handled, d) && handled[j].text == TAG_CONNECT
  }

  ghost predicate Closed(run: seq<Step>, handled: seq<Message>) {
    exists d: nat :: ClosesLast(run, handled, d)
  }

  /** What the control remembers of the run so far. */
  ghost predicate Remembers(run: seq<Step>, s: Agent) {
    && |s.handled| == Count(run)
    && (s.control.shuttingDown <==> exists i {:trigger run[i]} | 0 <= i < |run| :: run[i].ShutDown?)
    && (if s.control.aborted then Reopened(run, s.handled)
        else !Reopened(run, s.handled) && (s.control.stage == Done <==> Closed(run, s.handled)))
  }

  /** One step later the same messages close a session behind a shutdown. */
  lemma ClosesOn(run: seq<Step>, a: Step, handled: seq<Message>, d: nat)
    requires |handled| == Count(run)
    ensures ClosesLast(run + [a], handled, d) <==> ClosesLast(run, handled, d)
  {
    var more := run + [a];
    assert forall i {:trigger run[i]} {:trigger more[i]} | 0 <= i < |run| :: run[i] == more[i] && run[..i] == more[..i];
    assert more[..|run|] == run;
  }

  lemma Unhandled(run: seq<Step>, a: Step, s: Agent)
    requires Remembers(run, s) && Enabled(s, a) && !a.HandleNext?
    ensures Remembers(run + [a], Do(s, a))
  {
    var more := run + [a];
    assert more[..|run|] == run;
    forall d: nat ensures ClosesLast(more, s.handled, d) <==> ClosesLast(run, s.handled, d) {
      ClosesOn(run, a, s.handled, d);
    }
    assert forall i {:trigger run[i]} {:trigger more[i]} | 0 <= i < |run| :: run[i] == more[i];
  }

  /** Behind one message more the same messages close a session behind a shutdown, and perhaps that one. */
  lemma ClosesMore(run: seq<Step>, handled: seq<Message>, m: Message, d: nat)
    requires |handled| == Count(run)
    ensures ClosesLast(run + [HandleNext], handled + [m], d) <==>
      || ClosesLast(run, handled, d)
      || (d == |handled| && m.text == TAG_DISCONNECT
          && exists i {:trigger run[i]} | 0 <= i < |run| :: run[i].ShutDown?)
  {
    var more := run + [HandleNext];
    assert forall i {:trigger run[i]} {:trigger more[i]} | 0 <= i < |run| :: run[i] == more[i] && run[..i] == more[..i];
    forall i | 0 <= i < |run| ensures Count(run[..i]) <= |handled| {
      CountPart(run, i);
    }
  }

  lemma HandledStep(run: seq<Step>, s: Agent)
    requires Remembers(run, s) && Enabled(s, HandleNext) && Fits(s.control, s.handled)
    requires Bracketed(Do(s, HandleNext).handled).Some?
    ensures Remembers(run + [HandleNext], Do(s, HandleNext))
  {
    var more, m, t := run + [HandleNext], s.phase.batch[s.phase.next], Do(s, HandleNext);
    assert more[..|run|] == run;
    assert t.handled[..|s.handled|] == s.handled;
    HandleFits(s.control, s.handled, m);
    forall d: nat
      ensures ClosesLast(more, t.handled, d) <==>
        ClosesLast(run, s.handled, d) || (d == |s.handled| && m.text == TAG_DISCONNECT && s.control.shuttingDown)
    {
      ClosesMore(run, s.handled, m, d);
    }
    assert forall i {:trigger run[i]} {:trigger more[i]} | 0 <= i < |run| :: run[i] == more[i];
    if s.control.stage == Done {
      var d: nat :| ClosesLast(run, s.handled, d);
      assert ClosesLast(more, t.handled, d) && t.handled[|s.handled|] == m;
    } else if m.text == TAG_DISCONNECT && s.control.shuttingDown {
      assert ClosesLast(more, t.handled, |s.handled|);
    }
  }

  lemma BracketedSoFar(run: seq<Step>, n: nat)
    requires n <= |run| && Runs(START, run) && Bracketed(After(START, run).posted).Some?
    ensures Runs(START, run[..n]) && Bracketed(After(START, run[..n]).posted).Some?
  {
    FirstPart(START, run, n);
    var s, t := After(START, run[..n]), After(START, run);
    PostedGrows(s, run[n..]);
    BracketedPrefix(t.posted, |s.posted|);
    assert t.posted[..|s.posted|] == s.posted;
  }

  lemma BracketedHandled(run: seq<Step>)
    requires Runs(START, run) && Bracketed(After(START, run).posted).Some?
    ensures Bracketed(After(START, run).handled).Some?
  {
    var s := After(START, run);
    Always(START, run);
    BracketedPrefix(s.posted, |s.handled|);
    assert s.posted[..|s.handled|] == s.handled;
  }

  lemma {:induction false} AlwaysRemembers(run: seq<Step>)
    requires Runs(START, run) && Bracketed(After(START, run).posted).Some?
    ensures Remembers(run, After(START, run)) && InOrder(After(START, run))
    decreases |run|
  {
    AlwaysInOrder(START, run);
    if |run| > 0 {
      var n := |run| - 1;
      LastStep(START, run);
      BracketedSoFar(run, n);
      AlwaysRemembers(run[..n]);
      assert run[..n] + [run[n]] == run;
      if run[n].HandleNext? {
        BracketedHandled(run);
        HandledStep(run[..n], After(START, run[..n]));
      } else {
        Unhandled(run[..n], run[n], After(START, run[..n]));
      }
    }
  }

  /** Sessions that are well-bracketed fail a check, or reach a session that is not there, in exactly one case: a session
      is opened behind the one that a shutdown waits for. */
  lemma ChecksHold(run: seq<Step>)
    requires Runs(START, run) && Bracketed(After(START, run).posted).Some?
    ensures var s := After(START, run);
      && (s.control.aborted <==> Reopened(run, s.handled))
      && (!s.control.aborted ==> Fits(s.control, s.handled))
  {
    AlwaysRemembers(run);
  }

  lemma OneOn(s: Agent, run: seq<Step>, k: nat)
    requires k < |run| && Enabled(s, run[k])
    ensures Runs(s, run[k..]) <==> Runs(Do(s, run[k]), run[k + 1..])
    ensures Runs(s, run[k..]) ==> After(s, run[k..]) == After(Do(s, run[k]), run[k + 1..])
  {
    assert run[k..][1..] == run[k + 1..];
  }

  const OPEN1: Message := Message(1, TAG_CONNECT)
  const CLOSE1: Message := Message(1, TAG_DISCONNECT)
  const OPEN2: Message := Message(2, TAG_CONNECT)

  const CONNECTS: seq<Step> := [Post(0, OPEN1), Interrupt, Swap, HandleNext]
  const LEAVES: seq<Step> := [EndBatch, Swap, EndBatch]
  const SHUTS_DOWN: seq<Step> := [ShutDown, Post(1, CLOSE1), Post(2, OPEN2)]
  const REOPENS: seq<Step> := [Interrupt, Swap, HandleNext, HandleNext]

  const CONNECTED1: Agent :=
    Agent([], true, InBatch([OPEN1], 1), 0, map[0 := true], Control(Connected, 1, true, false, false), [OPEN1], [OPEN1])
  const SERVING: Agent := CONNECTED1.(dispatching := false, phase := Outside)
  const WAITING: Agent :=
    SERVING.(incoming := [CLOSE1, OPEN2], posters := map[0 := true, 1 := true, 2 := false],
             control := Control(Connected, 1, true, true, false), posted := [OPEN1, CLOSE1, OPEN2])

  lemma Connects()
    ensures Runs(START, CONNECTS) && After(START, CONNECTS) == CONNECTED1
  {
    var s1 := START.(incoming := [OPEN1], posters := map[0 := true], posted := [OPEN1]);
    var s2 := s1.(dispatching := true, phase := AtSwap);
    var s3 := s2.(incoming := [], phase := InBatch([OPEN1], 0));
    assert CONNECTS[0..] == CONNECTS && CONNECTS[4..] == [];
    assert Do(START, CONNECTS[0]) == s1;
    OneOn(START, CONNECTS, 0);
    OneOn(s1, CONNECTS, 1);
    OneOn(s2, CONNECTS, 2);
    OneOn(s3, CONNECTS, 3);
  }

  lemma Leaves()
    ensures Runs(CONNECTED1, LEAVES) && After(CONNECTED1, LEAVES) == SERVING
  {
    var s1 := CONNECTED1.(phase := AtSwap);
    var s2 := s1.(phase := InBatch([], 0));
    assert LEAVES[0..] == LEAVES && LEAVES[3..] == [];
    OneOn(CONNECTED1, LEAVES, 0);
    OneOn(s1, LEAVES, 1);
    OneOn(s2, LEAVES, 2);
  }

  lemma ShutsDown()
    ensures Runs(SERVING, SHUTS_DOWN) && After(SERVING, SHUTS_DOWN) == WAITING
  {
    var s1 := SERVING.(control := WAITING.control);
    var s2 := s1.(incoming := [CLOSE1], posters := map[0 := true, 1 := true], posted := [OPEN1, CLOSE1]);
    assert SHUTS_DOWN[0..] == SHUTS_DOWN && SHUTS_DOWN[3..] == [];
    assert Do(s1, SHUTS_DOWN[1]) == s2;
    assert Do(s2, SHUTS_DOWN[2]) == WAITING;
    OneOn(SERVING, SHUTS_DOWN, 0);
    OneOn(s1, SHUTS_DOWN, 1);
    OneOn(s2, SHUTS_DOWN, 2);
  }

  lemma Reopens()
    ensures Runs(WAITING, REOPENS)
    ensures var s := After(WAITING, REOPENS); s.control.aborted && s.posted == WAITING.posted
  {
    var s1 := WAITING.(dispatching := true, phase := AtSwap);
    var s2 := s1.(incoming := [], phase := InBatch([CLOSE1, OPEN2], 0));
    var s3 := s2.(phase := InBatch([CLOSE1, OPEN2], 1), control := Control(Done, 1, false, true, false),
                  handled := [OPEN1, CLOSE1]);
    assert REOPENS[0..] == REOPENS && REOPENS[4..] == [];
    assert Do(s2, REOPENS[2]) == s3;
    OneOn(WAITING, REOPENS, 0);
    OneOn(s1, REOPENS, 1);
    OneOn(s2, REOPENS, 2);
    OneOn(s3, REOPENS, 3);
  }

  lemma ThreeBracketed(m: Message, d: Message, c: Message)
    requires m.text == TAG_CONNECT && d.text == TAG_DISCONNECT && c.text == TAG_CONNECT
    ensures Bracketed([m, d, c]) == Some(true)
  {
    assert [m][..0] == [] && Bracketed([m]) == Some(true);
    assert [m, d][..1] == [m] && Bracketed([m, d]) == Some(false);
    assert [m, d, c][..2] == [m, d];
  }

  /** And that can happen: a second client connects while the agent waits for the first to disconnect. */
  lemma CheckFails()
    ensures var run := CONNECTS + LEAVES + SHUTS_DOWN + REOPENS;
      Runs(START, run) && After(START, run).control.aborted && Bracketed(After(START, run).posted) == Some(true)
  {
    Connects();
    Leaves();
    ShutsDown();
    Reopens();
    Joined(START, CONNECTS, LEAVES);
    Joined(START, CONNECTS + LEAVES, SHUTS_DOWN);
    Joined(START, CONNECTS + LEAVES + SHUTS_DOWN, REOPENS);
    ThreeBracketed(OPEN1, CLOSE1, OPEN2);
  }

  /** At the moment a message is handled: it fails exactly if the session that a shutdown waits for is closed. */
  lemma CheckAt(run: seq<Step>)
    requires Runs(START, run) && Enabled(After(START, run), HandleNext)
    requires Bracketed(After(START, run).posted).Some?
    ensures var s := After(START, run); Do(s, HandleNext).control.aborted <==> Closed(run, s.handled)
  {
    var s := After(START, run);
    AlwaysRemembers(run);
    OneMore(START, run, HandleNext);
    BracketedHandled(run + [HandleNext]);
    HandleFits(s.control, s.handled, s.phase.batch[s.phase.next]);
  }

  // ---------------------------------------------------------------- the code

  /** The agent's fields; its methods run without other threads in between. */
  class AgentImpl {
    var incoming: seq<Message>
    var dispatching: bool
    var scheduled: nat
    var control: Control
    var handled: seq<Message>

    /** The fields are those of an agent of the state machine. */
    ghost predicate Shows(s: Agent)
      reads this
    {
      incoming == s.incoming && dispatching == s.dispatching && scheduled == s.scheduled
      && control == s.control && handled == s.handled
    }

    constructor ()
      ensures incoming == [] && !dispatching && scheduled == 0 && handled == [] && control == START.control
      ensures Shows(START)
    {
      incoming, dispatching, scheduled, handled := [], false, 0, [];
      control := Control(Accepting, 0, false, false, false);
    }

    /** The locked section is the Post step: it tells the thread whether the queue was empty. */
    method AppendMessage(m: Message, ghost s: Agent, ghost t: nat) returns (trigger: bool)
      requires Shows(s) && Enabled(s, Post(t, m))
      modifies `incoming
      ensures incoming == old(incoming) + [m] && trigger == (old(incoming) == [])
      ensures Shows(Do(s, Post(t, m))) && trigger == Do(s, Post(t, m)).posters[t]
    {
      trigger := incoming == [];
      incoming := incoming + [m];
    }

    /** The Post step and then the Schedule step of the same thread. */
    method PostIncomingMessage(m: Message, ghost s: Agent, ghost t: nat)
      requires Shows(s) && Enabled(s, Post(t, m))
      modifies `incoming, `scheduled
      ensures incoming == old(incoming) + [m]
      ensures scheduled == old(scheduled) + if old(incoming) == [] then 1 else 0
      ensures var run := [Post(t, m), Schedule(t)]; Runs(s, run) && Shows(After(s, run))
    {
      var trigger := AppendMessage(m, s, t);
      ghost var posted := Do(s, Post(t, m));
      if trigger {
        scheduled := scheduled + 1;
      }
      OneMore(s, [], Post(t, m));
      OneMore(s, [Post(t, m)], Schedule(t));
      assert [] + [Post(t, m)] == [Post(t, m)];
      assert [Post(t, m)] + [Schedule(t)] == [Post(t, m), Schedule(t)];
    }

    /** The HandleNext step. */
    method HandleMessage(m: Message, ghost s: Agent)
      requires Shows(s) && Enabled(s, HandleNext) && s.phase.batch[s.phase.next] == m
      modifies `control, `handled
      ensures control == Handle(old(control), m) && handled == old(handled) + [m]
      ensures Shows(Do(s, HandleNext))
    {
      handled := handled + [m];
      if m.text == TAG_CONNECT {
        if control.stage != Accepting {
          control := control.(aborted := true);
          return;
        }
        control := control.(stage := Connected, sessionId := m.session, session := true);
      } else if m.text == TAG_DISCONNECT {
        if control.stage != Connected {
          control := control.(aborted := true);
          return;
        }
        control := control.(stage := if control.shuttingDown then Done else Accepting);
        control := control.(session := false);
      } else if !control.session {
        control := control.(aborted := true);
      }
    }

    /** The loop over a batch: HandleNext steps, to the end of the batch or to the message that fails. */
    method HandleBatch(tasks: seq<Message>, ghost s: Agent) returns (ghost run: seq<Step>)
      requires Shows(s) && s.phase == InBatch(tasks, 0) && !control.aborted
      modifies `control, `handled
      ensures Runs(s, run) && Shows(After(s, run)) && (forall a | a in run :: a.HandleNext?)
      ensures var t := After(s, run); t.phase == InBatch(tasks, |run|) && t.posted == s.posted && t.posters == s.posters
      ensures |run| <= |tasks| && handled == old(handled) + tasks[..|run|]
      ensures |run| < |tasks| ==> control.aborted
    {
      ghost var was := handled;
      run := [];
      assert was + [] == was;
      var i := 0;
      while i < |tasks| && !control.aborted
        invariant 0 <= i == |run| <= |tasks| && Runs(s, run) && Shows(After(s, run))
        invariant forall a | a in run :: a.HandleNext?
        invariant After(s, run).phase == InBatch(tasks, i) && After(s, run).posted == s.posted
        invariant After(s, run).posters == s.posters
        invariant handled == was + tasks[..i]
      {
        assert tasks[..i + 1] == tasks[..i] + [tasks[i]];
        HandleMessage(tasks[i], After(s, run));
        OneMore(s, run, HandleNext);
        run := run + [HandleNext];
        i := i + 1;
      }
    }

    /** DispatchMessages alone, behind any run, is a run of the foreground thread's steps. A call from inside the handling
        of a message returns at once; any other handles everything in the queue and leaves, or stops at the message that
        fails; and on well-bracketed sessions one fails exactly if it opens a session behind the one that a shutdown waits
        for. */
    method DispatchMessages(ghost before: seq<Step>) returns (ghost run: seq<Step>)
      requires Runs(START, before) && Shows(After(START, before)) && Enabled(After(START, before), Interrupt)
      modifies this
      ensures Runs(START, before + run) && Shows(After(START, before + run)) && |run| > 0 && run[0] == Interrupt
      ensures After(START, before + run).posters == After(START, before).posters
      ensures After(START, before + run).posted == After(START, before).posted
      ensures old(dispatching) ==> run == [Interrupt] && After(START, before + run) == After(START, before)
      ensures !old(dispatching) ==>
        if control.aborted then handled <= old(handled + incoming)
        else handled == old(handled + incoming) && incoming == [] && After(START, before + run).phase.Outside?
      ensures Bracketed(After(START, before).posted).Some? ==> (control.aborted <==> Reopened(before + run, handled))
    {
      Always(START, before);
      run := Dispatch(After(START, before));
      Joined(START, before, run);
      if Bracketed(After(START, before).posted).Some? {
        ChecksHold(before + run);
      }
    }

    /** The same from wherever the agent stands. */
    method Dispatch(ghost s: Agent) returns (ghost run: seq<Step>)
      requires Shows(s) && Inv(s) && Enabled(s, Interrupt)
      modifies this
      ensures Runs(s, run) && Shows(After(s, run)) && |run| > 0 && run[0] == Interrupt
      ensures After(s, run).posters == s.posters && After(s, run).posted == s.posted
      ensures old(dispatching) ==> run == [Interrupt] && After(s, run) == s
      ensures !old(dispatching) ==>
        if control.aborted then handled <= old(handled + incoming)
        else handled == old(handled + incoming) && incoming == [] && After(s, run).phase.Outside?
    {
      run := [Interrupt];
      OneMore(s, [], Interrupt);
      assert [] + [Interrupt] == [Interrupt];
      if dispatching {
        return;
      }
      dispatching := true;
      ghost var goal := handled + incoming;
      var more := true;
      while more
        invariant !control.aborted && Runs(s, run) && Shows(After(s, run)) && |run| > 0 && run[0] == Interrupt
        invariant After(s, run).posters == s.posters && After(s, run).posted == s.posted
        invariant handled + incoming == goal && After(s, run).phase == if more then AtSwap else Outside
        invariant !more ==> incoming == []
        decreases |incoming|, more
      {
        ghost var t := After(s, run);
        var tasks := incoming;
        incoming := [];
        OneMore(s, run, Swap);
        run := run + [Swap];
        ghost var handle := HandleBatch(tasks, Do(t, Swap));
        Joined(s, run, handle);
        run := run + handle;
        if control.aborted {
          return;
        }
        OneMore(s, run, EndBatch);
        run := run + [EndBatch];
        more := tasks != [];
        if !more {
          dispatching := false;
        }
      }
    }
  }
}
