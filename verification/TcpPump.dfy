/** The write pump of a connection: any number of threads call write_async, the completion of each send calls do_write
    again. Between its locked sections the pump holds no lock, so every interleaving of the steps below can happen. */
module TcpPump {
  import opened Bytes

  type Message = seq<byte>

  /** Where a thread inside write_async, or inside the completion handler, stands. */
  datatype Place =
    /** About to enter the locked section of do_write(cont). */
    | AtLock(cont: bool)
    /** Behind it with a message in hand. */
    | Holding(message: Message)
    /** messageToWrite_ assigned, async_send not yet called. */
    | Assigned

  /** The fields of a connection, the socket, the threads, and what has happened: every message pushed, every buffer
      whose send has completed, and every octet the socket has taken of them. */
  datatype Pump = Pump(
    outQueue: seq<Message>,
    writing: bool,
    messageToWrite: Message,
    sending: bool,
    failed: bool,
    threads: map<nat, Place>,
    pushed: seq<Message>,
    completed: seq<Message>,
    wire: seq<byte>)

  const START: Pump := Pump([], false, [], false, false, map[], [], [], [])

  // ---------------------------------------------------------------- the locked section

  datatype Taken = Taken(message: Option<Message>, outQueue: seq<Message>, writing: bool)

  /** What do_write does under the lock. */
  function Take(outQueue: seq<Message>, writing: bool, cont: bool): Taken {
    if !cont && writing then Taken(None, outQueue, writing)
    else if outQueue == [] then Taken(None, outQueue, false)
    else Taken(Some(outQueue[0]), outQueue[1..], true)
  }

  // ---------------------------------------------------------------- steps

  datatype Step =
    /** Thread `t` calls write_async and pushes under the lock. */
    | Push(t: nat, message: Message)
    /** Thread `t` runs the locked section of do_write. */
    | Lock(t: nat)
    | Assign(t: nat)
    | StartSend(t: nat)
    /** The send completes, `sent` octets of the buffer taken; its handler, which does not look at their number, runs on
        thread `t`. */
    | Complete(t: nat, sent: nat)
    /** The send fails; its handler does nothing. */
    | Fail

  predicate Enabled(s: Pump, a: Step) {
    match a
    case Push(t, _) => t !in s.threads
    case Lock(t) => t in s.threads && s.threads[t].AtLock?
    case Assign(t) => t in s.threads && s.threads[t].Holding?
    case StartSend(t) => t in s.threads && s.threads[t].Assigned?
    case Complete(t, sent) => s.sending && t !in s.threads && sent <= |s.messageToWrite|
    case Fail => s.sending
  }

  function Do(s: Pump, a: Step): Pump
    requires Enabled(s, a)
  {
    match a
    case Push(t, m) =>
      s.(outQueue := s.outQueue + [m], pushed := s.pushed + [m], threads := s.threads[t := AtLock(false)])
    case Lock(t) =>
      var k := Take(s.outQueue, s.writing, s.threads[t].cont);
      s.(outQueue := k.outQueue, writing := k.writing,
         threads := if k.message.Some? then s.threads[t := Holding(k.message.value)] else s.threads - {t})
    case Assign(t) => s.(messageToWrite := s.threads[t].message, threads := s.threads[t := Assigned])
    case StartSend(t) => s.(sending := true, threads := s.threads - {t})
    case Complete(t, sent) =>
      s.(sending := false, completed := s.completed + [s.messageToWrite], threads := s.threads[t := AtLock(true)],
         wire := s.wire + s.messageToWrite[..sent])
    case Fail => s.(sending := false, failed := true)
  }

  /** A run: each step enabled where it is taken. */
  predicate Runs(s: Pump, run: seq<Step>)
    decreases |run|
  {
    |run| > 0 ==> Enabled(s, run[0]) && Runs(Do(s, run[0]), run[1..])
  }

  function After(s: Pump, run: seq<Step>): Pump
    requires Runs(s, run)
    decreases |run|
  {
    if |run| == 0 then s else After(Do(s, run[0]), run[1..])
  }

  // ---------------------------------------------------------------- the invariant

  /** Who owns the slot for the message being written: nobody, a thread, the socket, or a send that failed. */
  datatype Slot = Free | Thread(t: nat) | Socket | Stuck

  predicate Owns(p: Place) {
    !(p.AtLock? && !p.cont)
  }

  /** The message at a place of do_write. */
  function MessageAt(s: Pump, p: Place): seq<Message> {
    match p
    case AtLock(_) => []
    case Holding(m) => [m]
    case Assigned => [s.messageToWrite]
  }

  /** The message popped and not yet sent. */
  function InFlight(s: Pump, slot: Slot): seq<Message>
    requires slot.Thread? ==> slot.t in s.threads
  {
    match slot
    case Free => []
    case Thread(t) => MessageAt(s, s.threads[t])
    case Socket => [s.messageToWrite]
    case Stuck => [s.messageToWrite]
  }

  /** `slot` has one owner, `writing` says whether it has any, no message is lost, doubled or out of order, and a message
      is never left behind without a thread that will come for it. */
  ghost predicate Held(s: Pump, slot: Slot) {
    && (slot.Thread? ==> slot.t in s.threads)
    && (forall t | t in s.threads :: Owns(s.threads[t]) <==> slot == Thread(t))
    && (s.sending <==> slot.Socket?) && (s.failed <==> slot.Stuck?) && (s.writing <==> !slot.Free?)
    && s.pushed == s.completed + InFlight(s, slot) + s.outQueue
    && (slot.Free? && s.outQueue != [] ==> exists t :: t in s.threads && s.threads[t] == AtLock(false))
  }

  ghost predicate Inv(s: Pump) {
    exists slot :: Held(s, slot)
  }

  /** Who owns the slot after a step. */
  function NextSlot(s: Pump, slot: Slot, a: Step): Slot
    requires Enabled(s, a)
  {
    match a
    case Push(_, _) => slot
    case Lock(t) =>
      if Take(s.outQueue, s.writing, s.threads[t].cont).message.Some? then Thread(t)
      else if slot == Thread(t) then Free else slot
    case Assign(_) => slot
    case StartSend(_) => Socket
    case Complete(t, _) => Thread(t)
    case Fail => Stuck
  }

  lemma PushKeeps(s: Pump, slot: Slot, t: nat, m: Message)
    requires Held(s, slot) && t !in s.threads
    ensures Held(Do(s, Push(t, m)), slot)
  {
    var s' := Do(s, Push(t, m));
    Regroup(s.completed + InFlight(s, slot), s.outQueue, [m]);
    assert s'.threads[t] == AtLock(false);
  }

  lemma LockKeeps(s: Pump, slot: Slot, t: nat)
    requires Held(s, slot) && Enabled(s, Lock(t))
    ensures Held(Do(s, Lock(t)), NextSlot(s, slot, Lock(t)))
  {
    var s', next := Do(s, Lock(t)), NextSlot(s, slot, Lock(t));
    var cont := s.threads[t].cont;
    assert cont <==> slot == Thread(t);
    var k := Take(s.outQueue, s.writing, cont);
    if k.message.Some? {
      assert s.outQueue == [s.outQueue[0]] + s.outQueue[1..];
      assert s.pushed == s.completed + InFlight(s', next) + s'.outQueue;
    } else if slot.Free? {
      assert s.outQueue == [];
    }
  }

  lemma StepKeeps(s: Pump, slot: Slot, a: Step)
    requires Held(s, slot) && Enabled(s, a)
    ensures Held(Do(s, a), NextSlot(s, slot, a))
  {
    match a
    case Push(t, m) => PushKeeps(s, slot, t, m);
    case Lock(t) => LockKeeps(s, slot, t);
    case Assign(t) =>
      assert slot == Thread(t);
    case StartSend(t) =>
      assert slot == Thread(t);
    case Complete(t, _) =>
      assert s.completed + [s.messageToWrite] + [] == s.completed + [s.messageToWrite];
    case Fail =>
  }

  /** The invariant holds in every state of every run. */
  lemma {:induction false} Always(s: Pump, run: seq<Step>)
    requires Inv(s) && Runs(s, run)
    ensures Inv(After(s, run))
    decreases |run|
  {
    if |run| > 0 {
      var slot :| Held(s, slot);
      StepKeeps(s, slot, run[0]);
      Always(Do(s, run[0]), run[1..]);
    }
  }

  // ---------------------------------------------------------------- main results

  ghost predicate Quiet(s: Pump) {
    s.threads == map[] && !s.sending
  }

  /** In every interleaving: what has been pushed is what has been sent, the one message in flight, and the queue, in
      order. In flight is what the thread that has popped it holds, or messageToWrite_ once that is assigned and until the
      send completes. While no caller or send is pending, and no send has failed, nothing is left. */
  lemma Conserved(run: seq<Step>)
    requires Runs(START, run)
    ensures var s := After(START, run);
      && (s.sending || s.failed ==> s.pushed == s.completed + [s.messageToWrite] + s.outQueue)
      && (forall t | t in s.threads && Owns(s.threads[t]) ::
            s.pushed == s.completed + MessageAt(s, s.threads[t]) + s.outQueue)
      && (!s.writing ==> s.pushed == s.completed + s.outQueue)
      && (Quiet(s) && !s.failed ==> s.outQueue == [] && s.completed == s.pushed && !s.writing)
  {
    assert Held(START, Free);
    Always(START, run);
    var s := After(START, run);
    var slot :| Held(s, slot);
    assert s.completed + [] == s.completed;
    forall t | t in s.threads && Owns(s.threads[t]) ensures slot == Thread(t) {
    }
  }

  /** Every send of a run takes its whole buffer. */
  predicate Whole(s: Pump, run: seq<Step>)
    requires Runs(s, run)
    decreases |run|
  {
    |run| > 0 ==>
      (run[0].Complete? ==> run[0].sent == |s.messageToWrite|) && Whole(Do(s, run[0]), run[1..])
  }

  lemma WireStep(s: Pump, a: Step)
    requires Enabled(s, a) && a.Complete?
    ensures |Flatten(Do(s, a).completed)| == |Flatten(s.completed)| + |s.messageToWrite|
    ensures |Do(s, a).wire| == |s.wire| + a.sent
    ensures s.wire == Flatten(s.completed) && a.sent == |s.messageToWrite| ==>
      Do(s, a).wire == Flatten(Do(s, a).completed)
  {
    FlattenMore(s.completed, s.messageToWrite);
    assert s.messageToWrite[..|s.messageToWrite|] == s.messageToWrite;
  }

  lemma {:induction false} WireOn(s: Pump, run: seq<Step>)
    requires Runs(s, run) && |s.wire| <= |Flatten(s.completed)|
    ensures var t := After(s, run);
      && |t.wire| <= |Flatten(t.completed)|
      && (|s.wire| < |Flatten(s.completed)| ==> |t.wire| < |Flatten(t.completed)|)
      && (s.wire == Flatten(s.completed) ==> (Whole(s, run) <==> t.wire == Flatten(t.completed)))
    decreases |run|
  {
    if |run| > 0 {
      if run[0].Complete? {
        WireStep(s, run[0]);
      }
      WireOn(Do(s, run[0]), run[1..]);
    }
  }

  /** The octets that arrive are those of the messages pushed, in order, exactly if every send took its whole buffer: the
      rest of a buffer that was taken in part is never sent. */
  lemma Arrives(run: seq<Step>)
    requires Runs(START, run)
    ensures var s := After(START, run);
      && (s.wire == Flatten(s.completed) <==> Whole(START, run))
      && (Quiet(s) && !s.failed ==> (s.wire == Flatten(s.pushed) <==> Whole(START, run)))
  {
    WireOn(START, run);
    Conserved(run);
  }

  /** A send that takes the first octet of two. */
  const SHORT: seq<Step> := [Push(0, [1, 2]), Lock(0), Assign(0), StartSend(0), Complete(1, 1), Lock(1)]

  lemma ShortSend()
    ensures Runs(START, SHORT)
    ensures var s := After(START, SHORT); Quiet(s) && !s.failed && s.pushed == [[1, 2]] && s.wire == [1]
  {
    var s1 := START.(outQueue := [[1, 2]], pushed := [[1, 2]], threads := map[0 := AtLock(false)]);
    var s2 := s1.(outQueue := [], writing := true, threads := map[0 := Holding([1, 2])]);
    var s3 := s2.(messageToWrite := [1, 2], threads := map[0 := Assigned]);
    var s4 := s3.(sending := true, threads := map[]);
    var s5 := s4.(sending := false, completed := [[1, 2]], threads := map[1 := AtLock(true)], wire := [1]);
    var s6 := s5.(writing := false, threads := map[]);
    assert Do(START, SHORT[0]) == s1;
    assert Do(s1, SHORT[1]) == s2;
    assert Do(s2, SHORT[2]) == s3;
    assert Do(s3, SHORT[3]) == s4;
    assert Do(s4, SHORT[4]) == s5;
    assert Do(s5, SHORT[5]) == s6;
    assert SHORT[1..][1..] == SHORT[2..] && SHORT[2..][1..] == SHORT[3..] && SHORT[3..][1..] == SHORT[4..];
    assert SHORT[4..][1..] == SHORT[5..] && SHORT[5..][1..] == [];
    assert Runs(s5, SHORT[5..]) && After(s5, SHORT[5..]) == s6;
    assert Runs(s4, SHORT[4..]) && After(s4, SHORT[4..]) == s6;
    assert Runs(s3, SHORT[3..]) && After(s3, SHORT[3..]) == s6;
    assert Runs(s2, SHORT[2..]) && After(s2, SHORT[2..]) == s6;
  }

  /** `writing` is set exactly while one thread, the socket or a failed send owns the slot; and no two own it. */
  lemma OneWriter(run: seq<Step>)
    requires Runs(START, run)
    ensures var s := After(START, run);
      && (s.writing <==> (exists t :: t in s.threads && Owns(s.threads[t])) || s.sending || s.failed)
      && (forall t, u :: t in s.threads && u in s.threads && Owns(s.threads[t]) && Owns(s.threads[u]) ==> t == u)
      && ((exists t :: t in s.threads && Owns(s.threads[t])) ==> !s.sending && !s.failed)
      && !(s.sending && s.failed)
  {
    assert Held(START, Free);
    Always(START, run);
    var s := After(START, run);
    var slot :| Held(s, slot);
    if slot.Thread? {
      assert Owns(s.threads[slot.t]);
    }
  }

  /** The buffer of a pending send is never written. */
  lemma BufferUntouched(run: seq<Step>, a: Step)
    requires Runs(START, run) && Enabled(After(START, run), a) && After(START, run).sending
    ensures Do(After(START, run), a).messageToWrite == After(START, run).messageToWrite
    ensures !a.Assign? && !a.StartSend?
  {
    OneWriter(run);
  }

  /** One send that fails is the last: nothing is ever sent again. */
  lemma {:induction false} FailureIsFinal(s: Pump, run: seq<Step>)
    requires Held(s, Stuck) && Runs(s, run)
    ensures Held(After(s, run), Stuck) && After(s, run).completed == s.completed
    decreases |run|
  {
    if |run| > 0 {
      StepKeeps(s, Stuck, run[0]);
      assert forall t | t in s.threads :: s.threads[t] == AtLock(false);
      FailureIsFinal(Do(s, run[0]), run[1..]);
    }
  }

  // ---------------------------------------------------------------- the code between the interleavings

  /** The fields of tcp_connection, with one method for each stretch of code that runs undisturbed. */
  class Connection {
    var outQueue: seq<Message>
    var writing: bool
    var messageToWrite: Message
    /** A send of messageToWrite is under way. */
    var sending: bool

    constructor ()
      ensures outQueue == [] && !writing && !sending
    {
      outQueue, writing, messageToWrite, sending := [], false, [], false;
    }

    /** The fields are those of `s`. */
    predicate Shows(s: Pump)
      reads this
    {
      outQueue == s.outQueue && writing == s.writing && messageToWrite == s.messageToWrite && sending == s.sending
    }

    /** The locked section of write_async. */
    method PushMessage(message: Message, ghost s: Pump, ghost t: nat)
      requires Shows(s) && Enabled(s, Push(t, message))
      modifies `outQueue
      ensures Shows(Do(s, Push(t, message)))
    {
      outQueue := outQueue + [message];
    }

    /** The locked section of do_write. */
    method TakeMessage(cont: bool, ghost s: Pump, ghost t: nat) returns (message: Option<Message>)
      requires Shows(s) && Enabled(s, Lock(t)) && s.threads[t].cont == cont
      modifies `outQueue, `writing
      ensures Shows(Do(s, Lock(t)))
      ensures var after := Do(s, Lock(t)).threads;
        if t in after then message == Some(after[t].message) else message == None
    {
      if !cont && writing {
        return None;
      }
      if outQueue == [] {
        writing := false;
        return None;
      }
      message := Some(outQueue[0]);
      outQueue := outQueue[1..];
      writing := true;
    }

    method SendMessage(message: Message, ghost s: Pump, ghost t: nat)
      requires Shows(s) && Enabled(s, Assign(t)) && s.threads[t].message == message
      modifies `messageToWrite, `sending
      ensures Shows(Do(Do(s, Assign(t)), StartSend(t)))
    {
      messageToWrite := message;
      sending := true;
    }

    /** do_write without anyone else in between: it reaches a state that the steps reach. */
    method DoWrite(cont: bool, ghost s: Pump, ghost t: nat) returns (ghost run: seq<Step>)
      requires Shows(s) && Enabled(s, Lock(t)) && s.threads[t].cont == cont
      modifies this
      ensures Runs(s, run) && Shows(After(s, run)) && t !in After(s, run).threads
    {
      var message := TakeMessage(cont, s, t);
      ghost var locked := Do(s, Lock(t));
      run := [Lock(t)];
      if message.Some? {
        SendMessage(message.value, locked, t);
        run := [Lock(t), Assign(t), StartSend(t)];
        assert run[1..] == [Assign(t), StartSend(t)] && run[1..][1..] == [StartSend(t)];
        var sent := Do(Do(locked, Assign(t)), StartSend(t));
        assert Runs(sent, []) && After(sent, []) == sent;
        assert After(Do(locked, Assign(t)), [StartSend(t)]) == sent;
      } else {
        assert Runs(locked, []) && After(locked, []) == locked;
      }
    }
  }
}
