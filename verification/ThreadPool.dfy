/**
 The thread pool that waits for its workers when it stops. Workers loop over lock, wait, pop and
 transfer; main accepts connections, inserting a task under the lock and signalling after it, until
 the flag is cleared, and then, once per worker, signals the condition, reads one thread id from the
 pipe and joins that thread.
 */
module ThreadPool {
  import opened Options

  /** Ready is about to lock; Stopping has seen the flag; Leaving has written its id to the pipe. */
  datatype Worker = Ready | Waiting | Busy(task: int) | Stopping | Leaving | Exited

  datatype Main = Accepting | Waking | Signalling(j: nat) | Reading(j: nat) | Joining(j: nat, tid: nat) | Returned

  datatype State = State(
    workers: seq<Worker>,
    workFlag: bool,
    queue: seq<int>,
    pipe: seq<nat>,
    main: Main,
    // histories: tasks inserted, popped, transferred and freed with the queue; ids joined
    inserted: seq<int>,
    popped: seq<int>,
    transferred: seq<int>,
    freed: seq<int>,
    joined: seq<nat>)

  datatype Action =
    | Insert(task: int)
    | Wake(wake: Option<nat>)
    | Stop
    | Signal(wake: Option<nat>)
    | Read
    | Join
    | Lock(i: nat)
    | Transfer(i: nat)
    | WriteId(i: nat)
    | Leave(i: nat)
    | Spurious(i: nat)

  predicate ByMain(a: Action) { a.Insert? || a.Wake? || a.Stop? || a.Signal? || a.Read? || a.Join? }

  predicate IsWaiting(s: State, i: nat) { i < |s.workers| && s.workers[i].Waiting? }

  /** pthread_cond_signal wakes one waiting worker if there is any. */
  ghost predicate SignalOk(s: State, wake: Option<nat>) {
    match wake
    case Some(k) => IsWaiting(s, k)
    case None => forall k :: !IsWaiting(s, k)
  }

  ghost predicate Allowed(s: State, a: Action) {
    match a
    case Insert(_) => s.main.Accepting?
    case Wake(wake) => s.main.Waking? && SignalOk(s, wake)
    case Stop => s.main.Accepting?
    case Signal(wake) => s.main.Signalling? && SignalOk(s, wake)
    case Read => s.main.Reading? && s.pipe != []
    case Join => s.main.Joining? && s.main.tid < |s.workers| && s.workers[s.main.tid].Exited?
    case Lock(i) => i < |s.workers| && s.workers[i].Ready?
    case Transfer(i) => i < |s.workers| && s.workers[i].Busy?
    case WriteId(i) => i < |s.workers| && s.workers[i].Stopping?
    case Leave(i) => i < |s.workers| && s.workers[i].Leaving?
    case Spurious(i) => IsWaiting(s, i)
  }

  function Woken(workers: seq<Worker>, wake: Option<nat>): seq<Worker> {
    if wake.Some? && wake.value < |workers| then workers[wake.value := Ready] else workers
  }

  /** The head of the stop loop: another round, or queue_delete and return. */
  function Round(s: State, j: nat): State {
    if j < |s.workers| then s.(main := Signalling(j))
    else s.(main := Returned, freed := s.queue, queue := [])
  }

  /**
   From the lock to the unlock. The wait loop ends with a task or with the flag cleared, so the pop
   is only reached with a task in the queue and never leaves the previous task in place.
   */
  function LockPass(s: State, i: nat): State
    requires i < |s.workers|
  {
    if s.queue == [] && s.workFlag then s.(workers := s.workers[i := Waiting])
    else if !s.workFlag then s.(workers := s.workers[i := Stopping])
    else s.(workers := s.workers[i := Busy(s.queue[0])], queue := s.queue[1..], popped := s.popped + [s.queue[0]])
  }

  ghost function Apply(s: State, a: Action): State
    requires Allowed(s, a)
  {
    match a
    case Insert(t) => s.(main := Waking, queue := s.queue + [t], inserted := s.inserted + [t])
    case Wake(wake) => s.(main := Accepting, workers := Woken(s.workers, wake))
    case Stop => Round(s.(workFlag := false), 0)
    case Signal(wake) => s.(main := Reading(s.main.j), workers := Woken(s.workers, wake))
    case Read => s.(main := Joining(s.main.j, s.pipe[0]), pipe := s.pipe[1..])
    case Join => Round(s.(joined := s.joined + [s.main.tid]), s.main.j + 1)
    case Lock(i) => LockPass(s, i)
    case Transfer(i) => s.(workers := s.workers[i := Ready], transferred := s.transferred + [s.workers[i].task])
    case WriteId(i) => s.(workers := s.workers[i := Leaving], pipe := s.pipe + [i])
    case Leave(i) => s.(workers := s.workers[i := Exited])
    case Spurious(i) => s.(workers := s.workers[i := Ready])
  }

  ghost predicate CanRun(s: State, run: seq<Action>)
    decreases |run|
  {
    run == [] || (Allowed(s, run[0]) && CanRun(Apply(s, run[0]), run[1..]))
  }

  ghost function Run(s: State, run: seq<Action>): State
    requires CanRun(s, run)
    decreases |run|
  {
    if run == [] then s else Run(Apply(s, run[0]), run[1..])
  }

  /** factory_start: n workers about to lock, the flag set. */
  function Started(n: nat): State {
    State(seq(n, _ => Ready), true, [], [], Accepting, [], [], [], [], [])
  }

  // ---- Counting ------------------------------------------------------------------------------

  function WaitingOne(w: Worker): nat { if w.Waiting? then 1 else 0 }
  function WrittenOne(w: Worker): nat { if w.Leaving? || w.Exited? then 1 else 0 }
  function HeldOne(w: Worker, t: int): nat { if w.Busy? && w.task == t then 1 else 0 }

  function HeldBy(t: int): Worker -> nat { w => HeldOne(w, t) }

  /** Steps a worker still has to take once the flag is cleared. */
  function RankOne(w: Worker): nat {
    match w
    case Busy(_) => 5
    case Waiting => 5
    case Ready => 4
    case Stopping => 3
    case Leaving => 2
    case Exited => 1
  }

  function Total(workers: seq<Worker>, f: Worker -> nat): nat {
    if workers == [] then 0 else f(workers[0]) + Total(workers[1..], f)
  }

  lemma {:induction false} TotalUpdate(workers: seq<Worker>, f: Worker -> nat, i: nat, w: Worker)
    requires i < |workers|
    ensures Total(workers[i := w], f) + f(workers[i]) == Total(workers, f) + f(w)
  {
    if i == 0 {
      assert workers[i := w][1..] == workers[1..];
    } else {
      assert workers[i := w][0] == workers[0] && workers[i := w][1..] == workers[1..][i - 1 := w];
      TotalUpdate(workers[1..], f, i - 1, w);
    }
  }

  lemma {:induction false} TotalHas(workers: seq<Worker>, f: Worker -> nat, i: nat)
    requires i < |workers|
    ensures f(workers[i]) <= Total(workers, f)
  {
    if i > 0 {
      TotalHas(workers[1..], f, i - 1);
    }
  }

  /** When nobody is waiting, gone or on the way, somebody is in between. */
  lemma {:induction false} SomebodyActive(workers: seq<Worker>) returns (i: nat)
    requires Total(workers, WaitingOne) + Total(workers, WrittenOne) < |workers|
    ensures i < |workers| && (workers[i].Ready? || workers[i].Busy? || workers[i].Stopping?)
  {
    if workers[0].Ready? || workers[0].Busy? || workers[0].Stopping? {
      i := 0;
    } else {
      i := SomebodyActive(workers[1..]);
      i := i + 1;
    }
  }

  lemma {:induction false} AllWritten(workers: seq<Worker>, i: nat)
    requires Total(workers, WrittenOne) >= |workers| && i < |workers|
    ensures WrittenOne(workers[i]) == 1 && Total(workers, WrittenOne) == |workers|
  {
    WrittenBound(workers[1..]);
    if i > 0 {
      AllWritten(workers[1..], i - 1);
    }
  }

  lemma {:induction false} WrittenBound(workers: seq<Worker>)
    ensures Total(workers, WaitingOne) + Total(workers, WrittenOne) <= |workers|
  {
    if workers != [] {
      WrittenBound(workers[1..]);
    }
  }

  // ---- The invariant ---------------------------------------------------------------------------

  /** Ids that have been written, in the order of writing. */
  function Ids(s: State): seq<nat> {
    s.joined + (if s.main.Joining? then [s.main.tid] else []) + s.pipe
  }

  /** Signals sent since the flag was cleared. */
  function Signals(s: State): nat {
    match s.main
    case Accepting => 0
    case Waking => 0
    case Signalling(j) => j
    case Reading(j) => j + 1
    case Joining(j, _) => j + 1
    case Returned => |s.workers|
  }

  predicate Rounds(s: State) {
    match s.main
    case Accepting => s.joined == []
    case Waking => s.joined == []
    case Signalling(j) => j < |s.workers| && |s.joined| == j
    case Reading(j) => j < |s.workers| && |s.joined| == j
    case Joining(j, _) => j < |s.workers| && |s.joined| == j
    case Returned => |s.joined| == |s.workers|
  }

  ghost predicate IdsInv(s: State) {
    && (forall k :: 0 <= k < |Ids(s)| ==> Ids(s)[k] < |s.workers| && WrittenOne(s.workers[Ids(s)[k]]) == 1)
    && (forall a, b :: 0 <= a < b < |Ids(s)| ==> Ids(s)[a] != Ids(s)[b])
    && Total(s.workers, WrittenOne) == |Ids(s)|
  }

  /** Each signal of the stop loop has got one worker out of waiting for good, unless none waits. */
  ghost predicate SignalsInv(s: State) {
    && (s.workFlag <==> s.main.Accepting? || s.main.Waking?)
    && (Total(s.workers, WaitingOne) > 0 && !s.workFlag ==>
          |s.workers| - Total(s.workers, WaitingOne) >= Signals(s))
    && (s.workFlag ==> forall i :: 0 <= i < |s.workers| ==> !s.workers[i].Stopping? && WrittenOne(s.workers[i]) == 0)
  }

  /** Each popped task has been transferred, or a worker holds it. */
  ghost predicate Counted(s: State, t: int) {
    multiset(s.popped)[t] == multiset(s.transferred)[t] + Total(s.workers, HeldBy(t))
  }

  ghost predicate TasksInv(s: State) {
    && s.inserted == s.popped + s.queue + s.freed
    && (!s.main.Returned? ==> s.freed == [])
    && (forall t :: Counted(s, t))
  }

  ghost predicate Inv(s: State) {
    Rounds(s) && IdsInv(s) && SignalsInv(s) && TasksInv(s)
  }

  lemma {:induction false} TotalZero(workers: seq<Worker>, f: Worker -> nat)
    requires forall i :: 0 <= i < |workers| ==> f(workers[i]) == 0
    ensures Total(workers, f) == 0
  {
    if workers != [] {
      TotalZero(workers[1..], f);
    }
  }

  lemma StartedInv(n: nat)
    ensures Inv(Started(n))
  {
    var s := Started(n);
    TotalZero(s.workers, WaitingOne);
    TotalZero(s.workers, WrittenOne);
    forall t: int ensures Total(s.workers, HeldBy(t)) == 0 {
      TotalZero(s.workers, HeldBy(t));
    }
  }

  /** What one worker's change, or a wakeup, does to the counts. */
  lemma WorkerEffect(s: State, i: nat, w: Worker, t: int)
    requires i < |s.workers|
    ensures var after := s.workers[i := w];
            && Total(after, WaitingOne) + WaitingOne(s.workers[i]) == Total(s.workers, WaitingOne) + WaitingOne(w)
            && Total(after, WrittenOne) + WrittenOne(s.workers[i]) == Total(s.workers, WrittenOne) + WrittenOne(w)
            && Total(after, HeldBy(t)) + HeldOne(s.workers[i], t) == Total(s.workers, HeldBy(t)) + HeldOne(w, t)
  {
    TotalUpdate(s.workers, WaitingOne, i, w);
    TotalUpdate(s.workers, WrittenOne, i, w);
    TotalUpdate(s.workers, HeldBy(t), i, w);
  }

  lemma WakeEffect(s: State, wake: Option<nat>, t: int)
    requires SignalOk(s, wake)
    ensures var after := Woken(s.workers, wake);
            && Total(after, WaitingOne) == Total(s.workers, WaitingOne) - (if wake.Some? then 1 else 0)
            && Total(after, WrittenOne) == Total(s.workers, WrittenOne)
            && Total(after, HeldBy(t)) == Total(s.workers, HeldBy(t))
            && (wake.None? ==> Total(s.workers, WaitingOne) == 0)
            && (forall k :: 0 <= k < |after| ==> WrittenOne(after[k]) == WrittenOne(s.workers[k]))
  {
    if wake.Some? {
      WorkerEffect(s, wake.value, Ready, t);
    } else if Total(s.workers, WaitingOne) > 0 {
      var k := SomeWaiting(s.workers);
      assert IsWaiting(s, k);
    }
  }

  lemma MainKeepsSignals(s: State, a: Action)
    requires Inv(s) && Allowed(s, a) && ByMain(a)
    ensures SignalsInv(Apply(s, a)) && Rounds(Apply(s, a))
  {
    match a
    case Insert(_) =>
    case Wake(wake) => WakeEffect(s, wake, 0);
    case Signal(wake) => WakeEffect(s, wake, 0);
    case Stop => WrittenBound(s.workers);
    case Read =>
    case Join =>
      if s.main.j + 1 == |s.workers| {
        JoinedLast(s);
      }
  }

  /** At the last join nobody waits any more: the ids written are as many as the workers. */
  lemma JoinedLast(s: State)
    requires Inv(s) && s.main.Joining? && s.main.j + 1 == |s.workers|
    ensures Total(s.workers, WaitingOne) == 0
  {
    WrittenBound(s.workers);
  }

  lemma WorkerKeepsSignals(s: State, a: Action)
    requires Inv(s) && Allowed(s, a) && !ByMain(a)
    ensures SignalsInv(Apply(s, a)) && Rounds(Apply(s, a))
  {
    WorkerEffect(s, a.i, Apply(s, a).workers[a.i], 0);
  }

  lemma IdsKept(s: State, after: State)
    requires IdsInv(s) && Ids(after) == Ids(s) && |after.workers| == |s.workers|
    requires forall k :: 0 <= k < |s.workers| ==> WrittenOne(after.workers[k]) == WrittenOne(s.workers[k])
    requires Total(after.workers, WrittenOne) == Total(s.workers, WrittenOne)
    ensures IdsInv(after)
  {
  }

  lemma WriteKeepsIds(s: State, i: nat)
    requires IdsInv(s) && i < |s.workers| && s.workers[i].Stopping?
    ensures IdsInv(s.(workers := s.workers[i := Leaving], pipe := s.pipe + [i]))
  {
    var after := s.(workers := s.workers[i := Leaving], pipe := s.pipe + [i]);
    WorkerEffect(s, i, Leaving, 0);
    assert Ids(after) == Ids(s) + [i];
    forall k | 0 <= k < |Ids(s)| ensures Ids(s)[k] != i {
      assert WrittenOne(s.workers[Ids(s)[k]]) == 1;
    }
  }

  lemma SameIds(s: State, a: Action)
    requires Rounds(s) && Allowed(s, a) && !a.WriteId?
    ensures Ids(Apply(s, a)) == Ids(s)
  {
    if a.Read? {
      assert s.pipe == [s.pipe[0]] + s.pipe[1..];
    }
  }

  lemma SameWritten(s: State, a: Action)
    requires Allowed(s, a) && !a.WriteId?
    ensures var after := Apply(s, a).workers;
            && |after| == |s.workers|
            && (forall k :: 0 <= k < |after| ==> WrittenOne(after[k]) == WrittenOne(s.workers[k]))
            && Total(after, WrittenOne) == Total(s.workers, WrittenOne)
  {
    if a.Wake? || a.Signal? {
      WakeEffect(s, a.wake, 0);
    } else if !ByMain(a) {
      WorkerSameWritten(s, a);
    }
  }

  lemma WorkerSameWritten(s: State, a: Action)
    requires Allowed(s, a) && !a.WriteId? && !ByMain(a)
    ensures var after := Apply(s, a).workers;
            && after == s.workers[a.i := after[a.i]] && WrittenOne(after[a.i]) == WrittenOne(s.workers[a.i])
            && Total(after, WrittenOne) == Total(s.workers, WrittenOne)
  {
    TotalUpdate(s.workers, WrittenOne, a.i, Apply(s, a).workers[a.i]);
  }

  lemma StepKeepsIds(s: State, a: Action)
    requires Inv(s) && Allowed(s, a)
    ensures IdsInv(Apply(s, a))
  {
    if a.WriteId? {
      WriteKeepsIds(s, a.i);
    } else {
      SameIds(s, a);
      SameWritten(s, a);
      IdsKept(s, Apply(s, a));
    }
  }

  lemma MainKeepsCounts(s: State, a: Action, t: int)
    requires Counted(s, t) && Allowed(s, a) && ByMain(a)
    ensures Counted(Apply(s, a), t)
  {
    if a.Wake? || a.Signal? {
      WakeEffect(s, a.wake, t);
    }
  }

  lemma WorkerKeepsCounts(s: State, a: Action, t: int)
    requires Counted(s, t) && Allowed(s, a) && !ByMain(a)
    ensures Counted(Apply(s, a), t)
  {
    TotalUpdate(s.workers, HeldBy(t), a.i, Apply(s, a).workers[a.i]);
  }

  lemma StepKeepsCounts(s: State, a: Action, t: int)
    requires Counted(s, t) && Allowed(s, a)
    ensures Counted(Apply(s, a), t)
  {
    if ByMain(a) {
      MainKeepsCounts(s, a, t);
    } else {
      WorkerKeepsCounts(s, a, t);
    }
  }

  lemma StepKeepsOrder(s: State, a: Action)
    requires s.inserted == s.popped + s.queue + s.freed && Allowed(s, a)
    requires !s.main.Returned? ==> s.freed == []
    ensures var after := Apply(s, a);
            after.inserted == after.popped + after.queue + after.freed && (!after.main.Returned? ==> after.freed == [])
  {
    if a.Insert? {
      assert s.freed == [];
    } else if a.Lock? && s.queue != [] {
      FirstMoves(s.popped, s.queue);
    }
  }

  lemma FirstMoves(popped: seq<int>, queue: seq<int>)
    requires queue != []
    ensures (popped + [queue[0]]) + queue[1..] == popped + queue
  {
  }

  lemma StepKeepsTasks(s: State, a: Action)
    requires Inv(s) && Allowed(s, a)
    ensures TasksInv(Apply(s, a))
  {
    StepKeepsOrder(s, a);
    forall t ensures Counted(Apply(s, a), t) {
      assert Counted(s, t);
      StepKeepsCounts(s, a, t);
    }
  }

  lemma StepKeepsInv(s: State, a: Action)
    requires Inv(s) && Allowed(s, a)
    ensures Inv(Apply(s, a))
  {
    if ByMain(a) {
      MainKeepsSignals(s, a);
    } else {
      WorkerKeepsSignals(s, a);
    }
    StepKeepsIds(s, a);
    StepKeepsTasks(s, a);
  }

  lemma {:induction false} SomeWaiting(workers: seq<Worker>) returns (k: nat)
    requires Total(workers, WaitingOne) > 0
    ensures k < |workers| && workers[k].Waiting?
  {
    if workers[0].Waiting? {
      k := 0;
    } else {
      k := SomeWaiting(workers[1..]);
      k := k + 1;
    }
  }

  lemma {:induction false} RunKeepsInv(s: State, run: seq<Action>)
    requires Inv(s) && CanRun(s, run)
    ensures Inv(Run(s, run))
    decreases |run|
  {
    if run != [] {
      StepKeepsInv(s, run[0]);
      RunKeepsInv(Apply(s, run[0]), run[1..]);
    }
  }

  // ---- Stopping ----------------------------------------------------------------------------------

  /** At the read there is an id in the pipe, or a worker that is not waiting and will write one. */
  lemma ReadFindsId(s: State) returns (i: nat)
    requires Inv(s) && s.main.Reading? && s.pipe == []
    ensures i < |s.workers| && (s.workers[i].Ready? || s.workers[i].Busy? || s.workers[i].Stopping?)
  {
    assert Ids(s) == s.joined;
    WrittenBound(s.workers);
    i := SomebodyActive(s.workers);
  }

  /** Until main has returned, the stopping pool always has a next step. */
  lemma StopNeverHangs(s: State) returns (a: Action)
    requires Inv(s) && !s.workFlag && !s.main.Returned?
    ensures Allowed(s, a)
  {
    match s.main
    case Signalling(_) =>
      if k :| 0 <= k < |s.workers| && IsWaiting(s, k) {
        a := Signal(Some(k));
      } else {
        a := Signal(None);
      }
    case Reading(_) =>
      if s.pipe != [] {
        a := Read;
      } else {
        var i := ReadFindsId(s);
        a := match s.workers[i] case Ready => Lock(i) case Busy(_) => Transfer(i) case _ => WriteId(i);
      }
    case Joining(j, tid) =>
      assert Ids(s)[j] == tid;
      a := if s.workers[tid].Exited? then Join else Leave(tid);
  }

  function MainRank(s: State): nat {
    match s.main
    case Accepting => 3 * |s.workers| + 1
    case Waking => 3 * |s.workers| + 2
    case Signalling(j) => if j < |s.workers| then 3 * (|s.workers| - j) else 0
    case Reading(j) => if j < |s.workers| then 3 * (|s.workers| - j) - 1 else 0
    case Joining(j, _) => if j < |s.workers| then 3 * (|s.workers| - j) - 2 else 0
    case Returned => 0
  }

  function StopMeasure(s: State): nat { MainRank(s) + Total(s.workers, RankOne) }

  /** Once the flag is cleared, every step of any thread brings the end nearer. */
  lemma StopDecreases(s: State, a: Action)
    requires Inv(s) && !s.workFlag && Allowed(s, a)
    ensures StopMeasure(Apply(s, a)) < StopMeasure(s) && !Apply(s, a).workFlag
  {
    var after := Apply(s, a);
    match a
    case Signal(wake) => if wake.Some? { TotalUpdate(s.workers, RankOne, wake.value, Ready); }
    case Read =>
    case Join =>
    case Lock(i) => TotalUpdate(s.workers, RankOne, i, after.workers[i]);
    case Transfer(i) => TotalUpdate(s.workers, RankOne, i, Ready);
    case WriteId(i) => TotalUpdate(s.workers, RankOne, i, Leaving);
    case Leave(i) => TotalUpdate(s.workers, RankOne, i, Exited);
    case Spurious(i) => TotalUpdate(s.workers, RankOne, i, Ready);
  }

  lemma {:induction false} StopRunsAreBounded(s: State, run: seq<Action>)
    requires Inv(s) && !s.workFlag && CanRun(s, run)
    ensures |run| <= StopMeasure(s)
    decreases |run|
  {
    if run != [] {
      StopDecreases(s, run[0]);
      StepKeepsInv(s, run[0]);
      StopRunsAreBounded(Apply(s, run[0]), run[1..]);
    }
  }

  lemma {:induction false} RankBound(workers: seq<Worker>)
    ensures Total(workers, RankOne) <= 5 * |workers|
  {
    if workers != [] {
      RankBound(workers[1..]);
    }
  }

  /**
   Stopping cannot hang, for any number of workers and any schedule: after the flag is cleared no run
   is longer than eight steps per worker, and until main has returned there is a next step.
   */
  lemma StopCannotHang(n: nat, before: seq<Action>, stopping: seq<Action>) returns (a: Action)
    requires CanRun(Started(n), before) && CanRun(Run(Started(n), before), [Stop] + stopping)
    ensures var s := Run(Started(n), before);
            && CanRun(Apply(s, Stop), stopping)
            && |stopping| <= 8 * |s.workers|
            && var end := Run(Apply(s, Stop), stopping);
               (!end.main.Returned? ==> Allowed(end, a))
  {
    StartedInv(n);
    RunKeepsInv(Started(n), before);
    var s := Run(Started(n), before);
    assert ([Stop] + stopping)[1..] == stopping;
    StepKeepsInv(s, Stop);
    var stopped := Apply(s, Stop);
    RankBound(stopped.workers);
    StopRunsAreBounded(stopped, stopping);
    RunKeepsInv(stopped, stopping);
    StaysStopped(stopped, stopping);
    var end := Run(stopped, stopping);
    a := Stop;
    if !end.main.Returned? {
      a := StopNeverHangs(end);
    }
  }

  lemma {:induction false} StaysStopped(s: State, run: seq<Action>)
    requires Inv(s) && !s.workFlag && CanRun(s, run)
    ensures !Run(s, run).workFlag && |Run(s, run).workers| == |s.workers|
    decreases |run|
  {
    if run != [] {
      StopDecreases(s, run[0]);
      StepKeepsInv(s, run[0]);
      StaysStopped(Apply(s, run[0]), run[1..]);
    }
  }

  /**
   When main returns, every worker has been joined, none twice, and none is still transferring; the
   tasks were popped in order, each popped one was transferred exactly once, and the rest was freed.
   */
  lemma ReturnedIsClean(n: nat, run: seq<Action>)
    requires CanRun(Started(n), run) && Run(Started(n), run).main.Returned?
    ensures var s := Run(Started(n), run);
            && |s.joined| == |s.workers|
            && (forall k :: 0 <= k < |s.joined| ==> s.joined[k] < |s.workers|)
            && (forall a, b :: 0 <= a < b < |s.joined| ==> s.joined[a] != s.joined[b])
            && (forall i :: 0 <= i < |s.workers| ==> s.workers[i].Leaving? || s.workers[i].Exited?)
            && s.pipe == []
            && s.inserted == s.popped + s.freed && s.queue == []
            && multiset(s.popped) == multiset(s.transferred)
  {
    StartedInv(n);
    RunKeepsInv(Started(n), run);
    QueueEmptyAtReturn(Started(n), run);
    EverybodyJoined(Run(Started(n), run));
    NothingHeld(Run(Started(n), run));
  }

  lemma EverybodyJoined(s: State)
    requires Inv(s) && s.main.Returned?
    ensures s.pipe == [] && Ids(s) == s.joined && |s.joined| == |s.workers|
    ensures forall i :: 0 <= i < |s.workers| ==> WrittenOne(s.workers[i]) == 1
  {
    WrittenBound(s.workers);
    assert |Ids(s)| == |s.joined| + |s.pipe|;
    assert s.pipe == [] && Ids(s) == s.joined;
    forall i | 0 <= i < |s.workers| ensures WrittenOne(s.workers[i]) == 1 {
      AllWritten(s.workers, i);
    }
  }

  lemma NothingHeld(s: State)
    requires TasksInv(s) && forall i :: 0 <= i < |s.workers| ==> WrittenOne(s.workers[i]) == 1
    ensures multiset(s.popped) == multiset(s.transferred)
  {
    forall t ensures multiset(s.popped)[t] == multiset(s.transferred)[t] {
      TotalZero(s.workers, HeldBy(t));
      assert Counted(s, t);
    }
  }

  lemma {:induction false} QueueEmptyAtReturn(s: State, run: seq<Action>)
    requires CanRun(s, run) && (s.main.Returned? ==> s.queue == [])
    requires Inv(s)
    ensures Run(s, run).main.Returned? ==> Run(s, run).queue == []
    decreases |run|
  {
    if run != [] {
      StepKeepsInv(s, run[0]);
      QueueEmptyAtReturn(Apply(s, run[0]), run[1..]);
    }
  }
}
