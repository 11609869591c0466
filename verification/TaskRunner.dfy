/** The worker and timer threads of the platform's task runner, and the threads that post to it. */
module TaskRunner {
  import opened Bytes

  /** A posted task; each is posted once, as the unique_ptr that carries it demands. */
  type Task = nat

  /** An entry of the priority queue. */
  datatype Entry = Entry(deadline: real, task: Task)

  /** Where TimerFunc stands: waiting or asleep; in its loop over the delayed tasks, holding their lock; with the lock
      released and a batch in hand; or stopped. */
  datatype Timer = Waiting | Collecting | Publishing | TimerStopped

  datatype Worker = Idle | Running(task: Task) | WorkerStopped

  /** The fields, the threads, the clock, and what has happened: when each delayed task was due and at what reading of the
      clock it was taken out, every task ever queued, every task that has run, and every batch. */
  datatype Runner = Runner(
    delayed: seq<Entry>,
    ready: seq<Task>,
    tasks: seq<Task>,
    timer: Timer,
    worker: Worker,
    stopRequested: bool,
    now: real,
    due: map<Task, real>,
    takenAt: map<Task, real>,
    posted: set<Task>,
    queued: seq<Task>,
    finished: seq<Task>,
    batches: seq<seq<Task>>)

  function Start(now: real): Runner {
    Runner([], [], [], Waiting, Idle, false, now, map[], map[], {}, [], [], [])
  }

  const NANOSECONDS := 1000000000.0

  // ---------------------------------------------------------------- steps

  datatype Step =
    | PostTask(task: Task)
    | PostDelayedTask(task: Task, delay: real)
    /** The timer thread wakes up and takes the lock of the delayed tasks. */
    | Wake
    /** It looks at the entry at `top` and finds its deadline past, or not. */
    | Collect(top: nat)
    /** No entry is left, or the top one is not due: the lock is released. */
    | Release(top: nat)
    /** The batch goes to the worker's queue under its lock. */
    | Publish
    /** The worker takes the first task. */
    | Take
    /** The task has run. */
    | Finish
    | Stop
    | StopTimer
    | StopWorker
    | Tick(d: real)

  /** std::priority_queue::top: an entry than which none is due earlier. */
  predicate IsTop(delayed: seq<Entry>, i: nat) {
    i < |delayed| && forall j | 0 <= j < |delayed| :: delayed[i].deadline <= delayed[j].deadline
  }

  function Remove<T>(s: seq<T>, i: nat): seq<T>
    requires i < |s|
  {
    s[..i] + s[i + 1..]
  }

  predicate Enabled(s: Runner, a: Step) {
    match a
    case PostTask(t) => t !in s.posted
    case PostDelayedTask(t, _) => t !in s.posted && !s.timer.Collecting?
    case Wake => s.timer.Waiting? && s.delayed != [] && !s.stopRequested
    case Collect(i) => s.timer.Collecting? && IsTop(s.delayed, i) && s.delayed[i].deadline < s.now
    case Release(i) => s.timer.Collecting? && (s.delayed == [] || (IsTop(s.delayed, i) && s.delayed[i].deadline >= s.now))
    case Publish => s.timer.Publishing?
    case Take => s.worker.Idle? && s.tasks != [] && !s.stopRequested
    case Finish => s.worker.Running?
    case Stop => true
    case StopTimer => s.timer.Waiting? && s.stopRequested
    case StopWorker => s.worker.Idle? && s.stopRequested
    case Tick(d) => d >= 0.0
  }

  function Queue(s: Runner, ts: seq<Task>): Runner {
    s.(tasks := s.tasks + ts, queued := s.queued + ts)
  }

  function Do(s: Runner, a: Step): Runner
    requires Enabled(s, a)
  {
    match a
    case PostTask(t) => Queue(s.(posted := s.posted + {t}), [t])
    case PostDelayedTask(t, delay) =>
      if delay == 0.0 then Queue(s.(posted := s.posted + {t}), [t])
      else
        var deadline := s.now + delay * NANOSECONDS;
        s.(posted := s.posted + {t}, delayed := s.delayed + [Entry(deadline, t)], due := s.due[t := deadline])
    case Wake => s.(timer := Collecting)
    case Collect(i) =>
      var t := s.delayed[i].task;
      s.(ready := s.ready + [t], delayed := Remove(s.delayed, i), takenAt := s.takenAt[t := s.now])
    case Release(_) => s.(timer := Publishing)
    case Publish => Queue(s.(ready := [], timer := Waiting, batches := s.batches + [s.ready]), s.ready)
    case Take => s.(worker := Running(s.tasks[0]), tasks := s.tasks[1..])
    case Finish => s.(worker := Idle, finished := s.finished + [s.worker.task])
    case Stop => s.(stopRequested := true)
    case StopTimer => s.(timer := TimerStopped)
    case StopWorker => s.(worker := WorkerStopped)
    case Tick(d) => s.(now := s.now + d)
  }

  predicate Runs(s: Runner, run: seq<Step>)
    decreases |run|
  {
    |run| > 0 ==> Enabled(s, run[0]) && Runs(Do(s, run[0]), run[1..])
  }

  function After(s: Runner, run: seq<Step>): Runner
    requires Runs(s, run)
    decreases |run|
  {
    if |run| == 0 then s else After(Do(s, run[0]), run[1..])
  }

  lemma {:induction false} OneStep(s: Runner, run: seq<Step>, a: Step)
    requires Runs(s, run) && Enabled(After(s, run), a)
    ensures Runs(s, run + [a]) && After(s, run + [a]) == Do(After(s, run), a)
    decreases |run|
  {
    if |run| == 0 {
      assert run + [a] == [a] && [a][1..] == [];
    } else {
      assert (run + [a])[1..] == run[1..] + [a];
      OneStep(Do(s, run[0]), run[1..], a);
    }
  }

  // ---------------------------------------------------------------- every task in one place

  function TasksOf(delayed: seq<Entry>): seq<Task> {
    seq(|delayed|, i requires 0 <= i < |delayed| => delayed[i].task)
  }

  function InHand(w: Worker): seq<Task> {
    if w.Running? then [w.task] else []
  }

  /** All the places a task can be. */
  function Places(s: Runner): multiset<Task> {
    multiset(TasksOf(s.delayed)) + multiset(s.ready) + multiset(s.tasks) + multiset(InHand(s.worker))
    + multiset(s.finished)
  }

  predicate Placed(s: Runner) {
    Places(s) == multiset(s.posted)
  }

  lemma TasksOfMore(delayed: seq<Entry>, e: Entry)
    ensures TasksOf(delayed + [e]) == TasksOf(delayed) + [e.task]
  {
  }

  lemma TasksOfLess(delayed: seq<Entry>, i: nat)
    requires i < |delayed|
    ensures multiset(TasksOf(delayed)) == multiset(TasksOf(Remove(delayed, i))) + multiset{delayed[i].task}
  {
    var all := TasksOf(delayed);
    assert all == all[..i] + [all[i]] + all[i + 1..];
    assert TasksOf(Remove(delayed, i)) == all[..i] + all[i + 1..];
  }

  lemma FreshTask(posted: set<Task>, t: Task)
    requires t !in posted
    ensures multiset(posted + {t}) == multiset(posted) + multiset{t}
  {
  }

  /** One task more in one of the places. */
  lemma OneMore(s: Runner, s': Runner, t: Task)
    requires Placed(s) && t !in s.posted && s'.posted == s.posted + {t}
    requires Places(s') == Places(s) + multiset{t}
    ensures Placed(s')
  {
    FreshTask(s.posted, t);
  }

  lemma QueueKept(s: Runner, t: Task)
    requires Placed(s) && t !in s.posted
    ensures Placed(Queue(s.(posted := s.posted + {t}), [t]))
  {
    assert multiset(s.tasks + [t]) == multiset(s.tasks) + multiset{t};
    OneMore(s, Queue(s.(posted := s.posted + {t}), [t]), t);
  }

  lemma DelayKept(s: Runner, t: Task, delay: real)
    requires Placed(s) && Enabled(s, PostDelayedTask(t, delay)) && delay != 0.0
    ensures Placed(Do(s, PostDelayedTask(t, delay)))
  {
    var e := Entry(s.now + delay * NANOSECONDS, t);
    TasksOfMore(s.delayed, e);
    assert multiset(TasksOf(s.delayed + [e])) == multiset(TasksOf(s.delayed)) + multiset{t};
    OneMore(s, Do(s, PostDelayedTask(t, delay)), t);
  }

  lemma CollectKept(s: Runner, i: nat)
    requires Placed(s) && Enabled(s, Collect(i))
    ensures Placed(Do(s, Collect(i)))
  {
    TasksOfLess(s.delayed, i);
    var t := s.delayed[i].task;
    assert multiset(s.ready + [t]) == multiset(s.ready) + multiset{t};
    Carry(multiset(TasksOf(Remove(s.delayed, i))), multiset(s.ready), t);
  }

  lemma Carry(a: multiset<Task>, b: multiset<Task>, t: Task)
    ensures a + multiset{t} + b == a + (b + multiset{t})
  {
  }

  lemma TakeKept(s: Runner)
    requires Placed(s) && Enabled(s, Take)
    ensures Placed(Do(s, Take))
  {
    assert s.tasks == [s.tasks[0]] + s.tasks[1..];
    assert multiset(s.tasks) == multiset{s.tasks[0]} + multiset(s.tasks[1..]);
  }

  lemma FinishKept(s: Runner)
    requires Placed(s) && Enabled(s, Finish)
    ensures Placed(Do(s, Finish))
  {
    var t := s.worker.task;
    assert multiset(s.finished + [t]) == multiset(s.finished) + multiset{t};
  }

  lemma PlacedKept(s: Runner, a: Step)
    requires Placed(s) && Enabled(s, a)
    ensures Placed(Do(s, a))
  {
    match a
    case PostTask(t) => QueueKept(s, t);
    case PostDelayedTask(t, delay) =>
      if delay == 0.0 {
        QueueKept(s, t);
      } else {
        DelayKept(s, t, delay);
      }
    case Collect(i) => CollectKept(s, i);
    case Take => TakeKept(s);
    case Finish => FinishKept(s);
    case Publish => assert multiset(s.tasks + s.ready) == multiset(s.tasks) + multiset(s.ready);
    case _ =>
  }

  // ---------------------------------------------------------------- first in, first out

  predicate Fifo(s: Runner) {
    s.queued == s.finished + InHand(s.worker) + s.tasks
  }

  lemma FifoKept(s: Runner, a: Step)
    requires Fifo(s) && Enabled(s, a)
    ensures Fifo(Do(s, a))
  {
    match a
    case PostTask(t) => Regroup(s.finished + InHand(s.worker), s.tasks, [t]);
    case PostDelayedTask(t, delay) => Regroup(s.finished + InHand(s.worker), s.tasks, [t]);
    case Publish => Regroup(s.finished + InHand(s.worker), s.tasks, s.ready);
    case Take =>
      assert s.tasks == [s.tasks[0]] + s.tasks[1..];
      assert s.finished + [] + s.tasks == s.finished + [s.tasks[0]] + s.tasks[1..];
    case _ =>
  }

  // ---------------------------------------------------------------- deadlines

  /** Every delayed task's deadline is on record, and those taken out were past it. */
  ghost predicate OnRecord(s: Runner) {
    && s.due.Keys <= s.posted
    && (forall i | 0 <= i < |s.delayed| ::
          s.delayed[i].task in s.due && s.due[s.delayed[i].task] == s.delayed[i].deadline)
    && (forall t | t in s.takenAt :: t in s.due && s.due[t] < s.takenAt[t] <= s.now)
    && (forall t | t in s.ready :: t in s.takenAt)
    && (forall t | t in s.queued :: t in s.posted && (t in s.due ==> t in s.takenAt))
  }

  lemma RecordKept(s: Runner, a: Step)
    requires OnRecord(s) && Enabled(s, a)
    ensures OnRecord(Do(s, a))
  {
  }

  /** In order of deadline. */
  predicate InOrder(due: map<Task, real>, ts: seq<Task>) {
    && (forall t | t in ts :: t in due)
    && forall i, j | 0 <= i < j < |ts| :: due[ts[i]] <= due[ts[j]]
  }

  /** The batch in hand and all earlier ones are in order; while it grows nothing left behind is due before it. */
  ghost predicate Ordered(s: Runner) {
    && InOrder(s.due, s.ready)
    && (s.timer.Waiting? || s.timer.TimerStopped? ==> s.ready == [])
    && (s.timer.Collecting? ==>
          forall t, i | t in s.ready && 0 <= i < |s.delayed| :: s.due[t] <= s.delayed[i].deadline)
    && forall b | b in s.batches :: InOrder(s.due, b)
  }

  /** The record of one more task leaves the order of others alone. */
  lemma InOrderStays(due: map<Task, real>, ts: seq<Task>, t: Task, deadline: real)
    requires InOrder(due, ts) && t !in due
    ensures InOrder(due[t := deadline], ts)
  {
    forall i, j | 0 <= i < j < |ts| ensures due[t := deadline][ts[i]] <= due[t := deadline][ts[j]] {
      assert ts[i] in due && ts[j] in due;
    }
  }

  lemma PostOrdered(s: Runner, t: Task, delay: real)
    requires OnRecord(s) && Ordered(s) && Enabled(s, PostDelayedTask(t, delay)) && delay != 0.0
    ensures Ordered(Do(s, PostDelayedTask(t, delay)))
  {
    var deadline := s.now + delay * NANOSECONDS;
    InOrderStays(s.due, s.ready, t, deadline);
    forall b | b in s.batches ensures InOrder(s.due[t := deadline], b) {
      InOrderStays(s.due, b, t, deadline);
    }
  }

  lemma CollectOrdered(s: Runner, i: nat)
    requires OnRecord(s) && Ordered(s) && Enabled(s, Collect(i))
    ensures Ordered(Do(s, Collect(i)))
  {
    var s' := Do(s, Collect(i));
    var rest := Remove(s.delayed, i);
    forall t, j | t in s'.ready && 0 <= j < |rest| ensures s.due[t] <= rest[j].deadline {
      assert rest[j] == s.delayed[if j < i then j else j + 1];
    }
    assert forall k | 0 <= k < |s.ready| :: s.due[s.ready[k]] <= s.delayed[i].deadline by {
      forall k | 0 <= k < |s.ready| ensures s.due[s.ready[k]] <= s.delayed[i].deadline {
        assert s.ready[k] in s.ready;
      }
    }
  }

  lemma OrderedKept(s: Runner, a: Step)
    requires OnRecord(s) && Ordered(s) && Enabled(s, a)
    ensures Ordered(Do(s, a))
  {
    match a
    case PostDelayedTask(t, delay) =>
      if delay != 0.0 {
        PostOrdered(s, t, delay);
      }
    case Collect(i) => CollectOrdered(s, i);
    case _ =>
  }

  // ---------------------------------------------------------------- every run

  ghost predicate Inv(s: Runner) {
    Placed(s) && Fifo(s) && OnRecord(s) && Ordered(s)
  }

  lemma StepKept(s: Runner, a: Step)
    requires Inv(s) && Enabled(s, a)
    ensures Inv(Do(s, a))
  {
    PlacedKept(s, a);
    FifoKept(s, a);
    RecordKept(s, a);
    OrderedKept(s, a);
  }

  lemma {:induction false} Always(s: Runner, run: seq<Step>)
    requires Inv(s) && Runs(s, run)
    ensures Inv(After(s, run))
    decreases |run|
  {
    if |run| > 0 {
      StepKept(s, run[0]);
      Always(Do(s, run[0]), run[1..]);
    }
  }

  /** In every interleaving every posted task is in exactly one place: delayed, in a batch, queued, running or finished.
      So none runs twice. */
  lemma OnePlace(now: real, run: seq<Step>, t: Task)
    requires Runs(Start(now), run)
    ensures var s := After(Start(now), run);
      Places(s)[t] == (if t in s.posted then 1 else 0) && multiset(s.finished + InHand(s.worker))[t] <= 1
  {
    Always(Start(now), run);
  }

  /** Tasks run in the order they were queued, those of a batch in order of their deadlines, and no delayed task is
      queued before the clock has been read past its deadline. */
  lemma RunInOrder(now: real, run: seq<Step>)
    requires Runs(Start(now), run)
    ensures var s := After(Start(now), run);
      && s.finished + InHand(s.worker) <= s.queued
      && (forall b | b in s.batches :: InOrder(s.due, b))
      && (forall t | t in s.queued && t in s.due :: t in s.takenAt && s.due[t] < s.takenAt[t] <= s.now)
  {
    Always(Start(now), run);
  }

  lemma {:induction false} DueStays(s: Runner, run: seq<Step>, t: Task)
    requires Runs(s, run) && t in s.due && t in s.posted
    ensures var e := After(s, run); t in e.due && e.due[t] == s.due[t]
    decreases |run|
  {
    if |run| > 0 {
      DueStays(Do(s, run[0]), run[1..], t);
    }
  }

  lemma DelayIs(s: Runner, t: Task, delay: real)
    requires Enabled(s, PostDelayedTask(t, delay)) && delay != 0.0
    ensures var d := Do(s, PostDelayedTask(t, delay));
      t in d.posted && t in d.due && d.due[t] == s.now + delay * 1_000_000_000.0
  {
  }

  lemma QueuedLate(s: Runner, t: Task)
    requires Inv(s) && t in s.queued && t in s.due
    ensures t in s.takenAt && s.due[t] < s.takenAt[t]
  {
  }

  /** A delay is in seconds and the clock counts nanoseconds: a task posted with a delay is not queued before the clock has
      been read that many times 10^9 beyond where it stood then, whatever else happens. */
  lemma NotBefore(now: real, before: seq<Step>, t: Task, delay: real, more: seq<Step>)
    requires Runs(Start(now), before)
    requires var s := After(Start(now), before); var a := PostDelayedTask(t, delay);
      delay != 0.0 && Enabled(s, a) && Runs(Do(s, a), more)
    ensures var s := After(Start(now), before); var e := After(Do(s, PostDelayedTask(t, delay)), more);
      t in e.queued ==> t in e.takenAt && e.takenAt[t] > s.now + delay * 1_000_000_000.0
  {
    var s := After(Start(now), before);
    Begins(now);
    Always(Start(now), before);
    DelayIs(s, t, delay);
    hide Inv, Do, Enabled;
    StepKept(s, PostDelayedTask(t, delay));
    var d := Do(s, PostDelayedTask(t, delay));
    Always(d, more);
    DueStays(d, more, t);
    if t in After(d, more).queued {
      QueuedLate(After(d, more), t);
    }
  }

  lemma Begins(now: real)
    ensures Inv(Start(now))
  {
  }

  // ---------------------------------------------------------------- the code

  /** In order of deadline. */
  predicate Sorted(es: seq<Entry>) {
    forall i, j | 0 <= i < j < |es| :: es[i].deadline <= es[j].deadline
  }

  predicate NoneBefore(es: seq<Entry>, rest: seq<Entry>) {
    forall i, j | 0 <= i < |es| && 0 <= j < |rest| :: es[i].deadline <= rest[j].deadline
  }

  lemma {:induction false} TopExists(delayed: seq<Entry>) returns (i: nat)
    requires delayed != []
    ensures IsTop(delayed, i)
    decreases |delayed|
  {
    i := 0;
    if |delayed| > 1 {
      var k := TopExists(delayed[1..]);
      assert forall j | 1 <= j < |delayed| :: delayed[j] == delayed[1..][j - 1];
      i := if delayed[0].deadline <= delayed[k + 1].deadline then 0 else k + 1;
    }
  }

  /** Of all the entries these have been taken out, as a batch in order of deadline, and none left is due before them. */
  ghost predicate Collected(all: seq<Entry>, delayed: seq<Entry>, taken: seq<Entry>, ready: seq<Task>) {
    && ready == TasksOf(taken) && multiset(all) == multiset(delayed) + multiset(taken)
    && Sorted(taken) && NoneBefore(taken, delayed)
  }

  predicate AllDue(es: seq<Entry>, now: real) {
    forall i | 0 <= i < |es| :: es[i].deadline < now
  }

  predicate NoneDue(es: seq<Entry>, now: real) {
    forall i | 0 <= i < |es| :: es[i].deadline >= now
  }

  class WorkerThreadsTaskRunner {
    var delayed: seq<Entry>
    var tasks: seq<Task>

    constructor ()
      ensures delayed == [] && tasks == []
    {
      delayed, tasks := [], [];
    }

    /** The queues are those of a runner of the state machine. */
    ghost predicate Shows(s: Runner)
      reads this
    {
      delayed == s.delayed && tasks == s.tasks
    }

    /** The PostTask step. */
    method PostTask(task: Task, ghost s: Runner)
      requires Shows(s) && Enabled(s, Step.PostTask(task))
      modifies `tasks
      ensures tasks == old(tasks) + [task] && Shows(Do(s, Step.PostTask(task)))
    {
      tasks := tasks + [task];
    }

    /** The PostDelayedTask step. */
    method PostDelayedTask(task: Task, delay: real, now: real, ghost s: Runner)
      requires Shows(s) && Enabled(s, Step.PostDelayedTask(task, delay)) && now == s.now
      modifies `tasks, `delayed
      ensures Shows(Do(s, Step.PostDelayedTask(task, delay)))
      ensures delay == 0.0 ==> tasks == old(tasks) + [task] && delayed == old(delayed)
      ensures delay != 0.0 ==>
        tasks == old(tasks) && delayed == old(delayed) + [Entry(now + delay * NANOSECONDS, task)]
    {
      if delay == 0.0 {
        PostTask(task, s);
        return;
      }
      delayed := delayed + [Entry(now + delay * NANOSECONDS, task)];
    }

    method Top() returns (i: nat)
      requires delayed != []
      ensures IsTop(delayed, i)
    {
      ghost var k := TopExists(delayed);
      i :| IsTop(delayed, i);
    }

    /** One turn of the timer's loop: the entry on top is taken out if its deadline is past. */
    method CollectTop(now: real, ready: seq<Task>, ghost all: seq<Entry>, ghost taken: seq<Entry>, ghost s: Runner,
                      ghost run: seq<Step>)
      returns (due: bool, more: seq<Task>, ghost top: nat)
      requires delayed != [] && Along(s, run, ready, now) && Collected(all, delayed, taken, ready)
      modifies `delayed
      ensures IsTop(old(delayed), top) && (due <==> old(delayed)[top].deadline < now)
      ensures !due ==> more == ready && delayed == old(delayed)
      ensures due ==>
        && |delayed| < |old(delayed)| && Collected(all, delayed, taken + [old(delayed)[top]], more)
        && Along(s, run + [Collect(top)], more, now)
    {
      var first := Top();
      top := first;
      due := delayed[first].deadline < now;
      more := ready;
      if due {
        TakeTop(taken, delayed, first);
        OneStep(s, run, Collect(first));
        more := more + [delayed[first].task];
        delayed := Remove(delayed, first);
      }
    }

    /** Nothing taken yet. */
    lemma NoneTaken(s: Runner)
      requires Shows(s) && s.timer.Collecting? && s.ready == []
      ensures Collected(delayed, delayed, [], []) && AllDue([], s.now) && Along(s, [], [], s.now)
    {
    }

    lemma NoneLeftDue(now: real, top: nat)
      requires delayed == [] || (IsTop(delayed, top) && delayed[top].deadline >= now)
      ensures NoneDue(delayed, now)
    {
    }

    /** The timer's loop under the lock; `clock(k)` is what its reading number `k` shows. It takes out, in order of
        deadline, the entries whose deadline a reading has passed, and stops when the earliest one left is not due. It is
        a run of the timer's steps, up to the release of the lock. */
    method CollectReady(clock: nat -> real, ghost s: Runner)
      returns (ready: seq<Task>, ghost taken: seq<Entry>, ghost readings: nat, ghost run: seq<Step>)
      requires delayed != [] && forall j: nat, k: nat | j <= k :: clock(j) <= clock(k)
      requires Shows(s) && s.timer.Collecting? && s.ready == [] && s.now <= clock(0)
      modifies `delayed
      ensures Collected(old(delayed), delayed, taken, ready)
      ensures readings > 0 && AllDue(taken, clock(readings - 1)) && NoneDue(delayed, clock(readings - 1))
      ensures Runs(s, run) && Shows(After(s, run))
      ensures After(s, run).timer.Publishing? && After(s, run).ready == ready && After(s, run).now == clock(readings - 1)
    {
      hide Collected, Runs, After, NoneDue;
      ready, taken, run := [], [], [];
      var k := 0;
      ghost var top: nat := 0;
      ghost var now := s.now;
      var due := true;
      NoneTaken(s);
      while due && delayed != []
        invariant Collected(old(delayed), delayed, taken, ready) && AllDue(taken, now) && Along(s, run, ready, now)
        invariant now == (if k == 0 then s.now else clock(k - 1)) && (k == 0 ==> due && delayed != [])
        invariant !due ==> IsTop(delayed, top) && delayed[top].deadline >= now
        decreases |delayed|, due
      {
        var reading := clock(k);
        assert k > 0 ==> clock(k - 1) <= clock(k);
        run := ReadClock(s, run, reading);
        now := reading;
        ghost var before := delayed;
        due, ready, top := CollectTop(reading, ready, old(delayed), taken, s, run);
        if due {
          taken := taken + [before[top]];
          run := run + [Collect(top)];
        }
        k := k + 1;
      }
      readings := k;
      NoneLeftDue(now, top);
      OneStep(s, run, Release(top));
      run := run + [Release(top)];
    }

    /** Under the lock, behind some of the timer's steps. */
    ghost predicate Along(s: Runner, run: seq<Step>, ready: seq<Task>, now: real)
      reads this
    {
      && Runs(s, run) && Shows(After(s, run))
      && After(s, run).timer.Collecting? && After(s, run).ready == ready && After(s, run).now == now
    }

    /** Time passes until the clock shows `now`. */
    lemma ReadClock(s: Runner, run: seq<Step>, now: real) returns (more: seq<Step>)
      requires Runs(s, run) && After(s, run).now <= now
      ensures Runs(s, more) && After(s, more) == After(s, run).(now := now)
    {
      var tick := Tick(now - After(s, run).now);
      OneStep(s, run, tick);
      more := run + [tick];
    }

    /** The timer's second loop: the batch goes to the worker's queue, first taken first. It is the Publish step. */
    method PublishReady(ready: seq<Task>, ghost s: Runner)
      requires Shows(s) && s.timer.Publishing? && s.ready == ready
      modifies `tasks
      ensures tasks == old(tasks) + ready && Shows(Do(s, Publish))
    {
      var left := ready;
      while left != []
        invariant old(tasks) + ready == tasks + left
        decreases |left|
      {
        Regroup(tasks, [left[0]], left[1..]);
        assert left == [left[0]] + left[1..];
        tasks := tasks + [left[0]];
        left := left[1..];
      }
    }

    /** The worker's locked section: the Take step, if there is a task to take. */
    method NextTask(ghost s: Runner) returns (task: Option<Task>)
      requires Shows(s) && s.worker.Idle? && !s.stopRequested
      modifies `tasks
      ensures old(tasks) == [] ==> task.None? && Shows(s)
      ensures old(tasks) != [] ==>
        task.Some? && old(tasks) == [task.value] + tasks
        && Shows(Do(s, Take)) && Do(s, Take).worker == Running(task.value)
    {
      if tasks == [] {
        return None;
      }
      task := Some(tasks[0]);
      tasks := tasks[1..];
    }
  }

  lemma KeepsOrder(taken: seq<Entry>, delayed: seq<Entry>, top: nat)
    requires IsTop(delayed, top) && Sorted(taken) && NoneBefore(taken, delayed)
    ensures Sorted(taken + [delayed[top]]) && NoneBefore(taken + [delayed[top]], Remove(delayed, top))
  {
    var rest := Remove(delayed, top);
    assert forall j | 0 <= j < |rest| :: rest[j] == delayed[if j < top then j else j + 1];
  }

  /** The top entry taken out. */
  lemma TakeTop(taken: seq<Entry>, delayed: seq<Entry>, top: nat)
    requires IsTop(delayed, top) && Sorted(taken) && NoneBefore(taken, delayed)
    ensures var e, rest := delayed[top], Remove(delayed, top);
      && TasksOf(taken + [e]) == TasksOf(taken) + [e.task]
      && multiset(delayed) + multiset(taken) == multiset(rest) + multiset(taken + [e])
      && Sorted(taken + [e]) && NoneBefore(taken + [e], rest)
  {
    TasksOfMore(taken, delayed[top]);
    KeepsOrder(taken, delayed, top);
    assert delayed == delayed[..top] + [delayed[top]] + delayed[top + 1..];
  }
}
