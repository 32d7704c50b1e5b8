/** The ring buffer of one slot less than its array: put and get as one pass through the critical section. */
module RingBuffer {
  const BUFFER_SIZE: nat := 20
  const CAPACITY: nat := BUFFER_SIZE - 1
  const OVER := -1

  /** The stored items, from readpos up to writepos around the end of the array. */
  function Window(buffer: seq<int>, readpos: nat, writepos: nat): seq<int>
    requires readpos < |buffer| && writepos < |buffer|
  {
    if readpos <= writepos then buffer[readpos..writepos] else buffer[readpos..] + buffer[..writepos]
  }

  lemma WindowFull(buffer: seq<int>, readpos: nat, writepos: nat)
    requires |buffer| == BUFFER_SIZE && readpos < |buffer| && writepos < |buffer|
    ensures |Window(buffer, readpos, writepos)| <= CAPACITY
    ensures (writepos + 1) % BUFFER_SIZE == readpos <==> |Window(buffer, readpos, writepos)| == CAPACITY
    ensures writepos == readpos <==> Window(buffer, readpos, writepos) == []
  {
  }

  class ProdCons {
    const buffer: array<int>
    var readpos: nat
    var writepos: nat

    ghost predicate Valid()
      reads this
    {
      buffer.Length == BUFFER_SIZE && readpos < BUFFER_SIZE && writepos < BUFFER_SIZE
    }

    ghost function Contents(): seq<int>
      reads this, buffer
      requires Valid()
    {
      Window(buffer[..], readpos, writepos)
    }

    constructor ()
      ensures Valid() && fresh(buffer) && Contents() == []
    {
      buffer := new int[BUFFER_SIZE];
      readpos, writepos := 0, 0;
    }

    /** One pass of put: either it must wait, or the item is in the buffer behind the others. */
    method Put(data: int) returns (mustWait: bool)
      requires Valid()
      modifies this`writepos, buffer
      ensures Valid()
      ensures mustWait <==> |old(Contents())| == CAPACITY
      ensures Contents() == if mustWait then old(Contents()) else old(Contents()) + [data]
    {
      WindowFull(buffer[..], readpos, writepos);
      if (writepos + 1) % BUFFER_SIZE == readpos {
        return true;
      }
      ghost var before := buffer[..];
      buffer[writepos] := data;
      assert buffer[..] == before[writepos := data];
      writepos := writepos + 1;
      if writepos >= BUFFER_SIZE {
        writepos := 0;
      }
      mustWait := false;
    }

    /** One pass of get: either it must wait, or the oldest item leaves. */
    method Get() returns (mustWait: bool, data: int)
      requires Valid()
      modifies this`readpos
      ensures Valid()
      ensures mustWait <==> old(Contents()) == []
      ensures if mustWait then Contents() == old(Contents()) else old(Contents()) == [data] + Contents()
    {
      WindowFull(buffer[..], readpos, writepos);
      if writepos == readpos {
        return true, 0;
      }
      data := buffer[readpos];
      readpos := readpos + 1;
      if readpos >= BUFFER_SIZE {
        readpos := 0;
      }
      mustWait := false;
    }
  }
}

/**
 Any number of producers and consumers around one such buffer. Each pass through the critical
 section is one step, because the mutex is held for all of it; waiting gives the mutex up.
 */
module BoundedBuffer {
  import opened Options
  import opened RingBuffer

  /** Awakened threads have been signalled, or woken for no reason, and have to look again. */
  datatype Status = Ready | Waiting | Awakened | Finished

  datatype Thread =
    | Producer(status: Status, todo: seq<int>)
    | Consumer(status: Status, got: seq<int>)

  datatype State = State(buffer: seq<int>, threads: seq<Thread>, produced: seq<int>, consumed: seq<int>)

  /** `wake` is the thread that the signal at the end of a pass reaches. */
  datatype Action = Pass(i: nat, wake: Option<nat>) | Spurious(i: nat)

  predicate Waits(s: State, k: nat, producer: bool) {
    k < |s.threads| && s.threads[k].status == Waiting && s.threads[k].Producer? == producer
  }

  predicate Runnable(s: State, i: nat) {
    i < |s.threads| && (s.threads[i].status == Ready || s.threads[i].status == Awakened)
  }

  predicate MustWait(s: State, i: nat)
    requires i < |s.threads|
  {
    if s.threads[i].Producer? then |s.buffer| == CAPACITY else s.buffer == []
  }

  /** A signal reaches one waiting thread of the other kind if there is any. */
  ghost predicate SignalOk(s: State, producer: bool, wake: Option<nat>) {
    match wake
    case Some(k) => Waits(s, k, producer)
    case None => forall k :: !Waits(s, k, producer)
  }

  ghost predicate Allowed(s: State, a: Action) {
    match a
    case Pass(i, wake) =>
      && Runnable(s, i)
      && (s.threads[i].Producer? ==> s.threads[i].todo != [])
      && (if MustWait(s, i) then wake == None else SignalOk(s, s.threads[i].Consumer?, wake))
    case Spurious(i) => i < |s.threads| && s.threads[i].status == Waiting
  }

  function Awaken(threads: seq<Thread>, wake: Option<nat>): seq<Thread> {
    if wake.Some? && wake.value < |threads|
    then threads[wake.value := threads[wake.value].(status := Awakened)]
    else threads
  }

  /** A producer ends when nothing is left to put, a consumer when it gets OVER. */
  function AfterPut(t: Thread): Thread
    requires t.Producer? && t.todo != []
  {
    Producer(if |t.todo| == 1 then Finished else Ready, t.todo[1..])
  }

  function AfterGet(t: Thread, item: int): Thread
    requires t.Consumer?
  {
    Consumer(if item == OVER then Finished else Ready, t.got + [item])
  }

  ghost function Apply(s: State, a: Action): State
    requires Allowed(s, a)
  {
    match a
    case Spurious(i) => s.(threads := s.threads[i := s.threads[i].(status := Awakened)])
    case Pass(i, wake) =>
      var t := s.threads[i];
      if MustWait(s, i) then s.(threads := s.threads[i := t.(status := Waiting)])
      else if t.Producer? then
        s.(buffer := s.buffer + [t.todo[0]], produced := s.produced + [t.todo[0]],
           threads := Awaken(s.threads[i := AfterPut(t)], wake))
      else
        s.(buffer := s.buffer[1..], consumed := s.consumed + [s.buffer[0]],
           threads := Awaken(s.threads[i := AfterGet(t, s.buffer[0])], wake))
  }

  ghost predicate CanRun(s: State, run: seq<Action>)
    decreases |run|
  {
    run == [] || (Allowed(s, run[0]) && CanRun(Apply(s, run[0]), run[1..]))
  }

  ghost function Run(s: State, run: seq<Action>): State
    requires CanRun(s, run)
    decreases |run|
  {
    if run == [] then s else Run(Apply(s, run[0]), run[1..])
  }

  // ---- Counting threads --------------------------------------------------------------------

  function Is(t: Thread, producer: bool, status: Status): nat {
    if t.Producer? == producer && t.status == status then 1 else 0
  }

  function Count(threads: seq<Thread>, producer: bool, status: Status): nat {
    if threads == [] then 0 else Is(threads[0], producer, status) + Count(threads[1..], producer, status)
  }

  lemma {:induction false} CountUpdate(threads: seq<Thread>, i: nat, t: Thread, producer: bool, status: Status)
    requires i < |threads|
    ensures Count(threads[i := t], producer, status) + Is(threads[i], producer, status) ==
            Count(threads, producer, status) + Is(t, producer, status)
  {
    if i == 0 {
      assert threads[i := t][1..] == threads[1..];
    } else {
      assert threads[i := t][0] == threads[0] && threads[i := t][1..] == threads[1..][i - 1 := t];
      CountUpdate(threads[1..], i - 1, t, producer, status);
    }
  }

  lemma {:induction false} CountHas(threads: seq<Thread>, i: nat)
    requires i < |threads|
    ensures Count(threads, threads[i].Producer?, threads[i].status) >= 1
  {
    if i > 0 {
      CountHas(threads[1..], i - 1);
    }
  }

  lemma {:induction false} CountFind(threads: seq<Thread>, producer: bool, status: Status) returns (i: nat)
    requires Count(threads, producer, status) >= 1
    ensures i < |threads| && threads[i].Producer? == producer && threads[i].status == status
  {
    if Is(threads[0], producer, status) == 1 {
      i := 0;
    } else {
      i := CountFind(threads[1..], producer, status);
      i := i + 1;
    }
  }

  function Room(s: State): int { CAPACITY - |s.buffer| }

  // ---- The invariant -----------------------------------------------------------------------

  /** While producers wait, every free slot has an awakened producer coming for it; likewise items. */
  ghost predicate WakeupsInv(s: State) {
    && (Count(s.threads, true, Waiting) > 0 ==> Room(s) <= Count(s.threads, true, Awakened))
    && (Count(s.threads, false, Waiting) > 0 ==> |s.buffer| <= Count(s.threads, false, Awakened))
  }

  ghost predicate Inv(s: State) {
    && |s.buffer| <= CAPACITY
    && s.produced == s.consumed + s.buffer
    && WakeupsInv(s)
    && (forall i :: 0 <= i < |s.threads| && s.threads[i].Producer? && s.threads[i].status != Finished ==>
          s.threads[i].todo != [])
  }

  lemma NoneWaiting(s: State, producer: bool)
    requires forall k :: !Waits(s, k, producer)
    ensures Count(s.threads, producer, Waiting) == 0
  {
    if Count(s.threads, producer, Waiting) > 0 {
      var k := CountFind(s.threads, producer, Waiting);
      assert Waits(s, k, producer);
    }
  }

  /** What one successful pass does to the counts of waiting and awakened threads. */
  lemma SignalCounts(s: State, i: nat, t: Thread, wake: Option<nat>, producer: bool)
    requires Runnable(s, i) && t.Producer? == s.threads[i].Producer? && (t.status == Ready || t.status == Finished)
    requires SignalOk(s, !t.Producer?, wake)
    ensures var after := Awaken(s.threads[i := t], wake);
            var own := t.Producer?;
            && Count(after, own, Waiting) == Count(s.threads, own, Waiting)
            && Count(after, own, Awakened) == Count(s.threads, own, Awakened) - Is(s.threads[i], own, Awakened)
            && (Count(after, !own, Waiting) > 0 ==>
                  Count(after, !own, Awakened) == Count(s.threads, !own, Awakened) + 1)
            && Count(after, !own, Waiting) <= Count(s.threads, !own, Waiting)
  {
    var own := t.Producer?;
    var mid := s.threads[i := t];
    CountUpdate(s.threads, i, t, own, Waiting);
    CountUpdate(s.threads, i, t, own, Awakened);
    CountUpdate(s.threads, i, t, !own, Waiting);
    CountUpdate(s.threads, i, t, !own, Awakened);
    if wake.Some? {
      var k := wake.value;
      var w := mid[k].(status := Awakened);
      CountUpdate(mid, k, w, own, Waiting);
      CountUpdate(mid, k, w, own, Awakened);
      CountUpdate(mid, k, w, !own, Waiting);
      CountUpdate(mid, k, w, !own, Awakened);
    } else {
      NoneWaiting(s, !own);
    }
  }

  lemma WaitCounts(threads: seq<Thread>, i: nat, status: Status, producer: bool)
    requires i < |threads|
    ensures var after := threads[i := threads[i].(status := status)];
            && Count(after, producer, Waiting) + Is(threads[i], producer, Waiting) ==
               Count(threads, producer, Waiting) + Is(threads[i].(status := status), producer, Waiting)
            && Count(after, producer, Awakened) + Is(threads[i], producer, Awakened) ==
               Count(threads, producer, Awakened) + Is(threads[i].(status := status), producer, Awakened)
  {
    CountUpdate(threads, i, threads[i].(status := status), producer, Waiting);
    CountUpdate(threads, i, threads[i].(status := status), producer, Awakened);
  }

  lemma StepKeepsWakeups(s: State, a: Action)
    requires Inv(s) && Allowed(s, a)
    ensures WakeupsInv(Apply(s, a))
  {
    match a
    case Spurious(i) =>
      WaitCounts(s.threads, i, Awakened, true);
      WaitCounts(s.threads, i, Awakened, false);
    case Pass(i, wake) =>
      if MustWait(s, i) {
        WaitCounts(s.threads, i, Waiting, true);
        WaitCounts(s.threads, i, Waiting, false);
      } else {
        var t := if s.threads[i].Producer? then AfterPut(s.threads[i]) else AfterGet(s.threads[i], s.buffer[0]);
        SignalCounts(s, i, t, wake, t.Producer?);
      }
  }

  lemma StepKeepsInv(s: State, a: Action)
    requires Inv(s) && Allowed(s, a)
    ensures Inv(Apply(s, a))
  {
    StepKeepsWakeups(s, a);
  }

  lemma {:induction false} RunKeepsInv(s: State, run: seq<Action>)
    requires Inv(s) && CanRun(s, run)
    ensures Inv(Run(s, run))
    decreases |run|
  {
    if run != [] {
      StepKeepsInv(s, run[0]);
      RunKeepsInv(Apply(s, run[0]), run[1..]);
    }
  }

  /** All threads ready, nothing in the buffer. */
  ghost predicate Starts(s: State) {
    && s.buffer == [] && s.produced == [] && s.consumed == []
    && (forall i :: 0 <= i < |s.threads| ==>
          s.threads[i].status == Ready && (s.threads[i].Producer? ==> s.threads[i].todo != []))
  }

  lemma StartInv(s: State)
    requires Starts(s)
    ensures Inv(s)
  {
    if Count(s.threads, true, Waiting) > 0 {
      var k := CountFind(s.threads, true, Waiting);
    }
    if Count(s.threads, false, Waiting) > 0 {
      var k := CountFind(s.threads, false, Waiting);
    }
  }

  /** First in, first out across all threads: what was consumed is a prefix of what was produced. */
  lemma ConsumedIsPrefix(s: State, run: seq<Action>)
    requires Starts(s) && CanRun(s, run)
    ensures Run(s, run).consumed <= Run(s, run).produced
  {
    StartInv(s);
    RunKeepsInv(s, run);
  }

  /** No lost wakeup: a thread that waits although it could proceed has an awakened one before it. */
  lemma NoLostWakeup(s: State, run: seq<Action>, i: nat)
    requires Starts(s) && CanRun(s, run)
    requires var r := Run(s, run); i < |r.threads| && r.threads[i].status == Waiting && !MustWait(r, i)
    ensures var r := Run(s, run);
            exists k :: 0 <= k < |r.threads| && r.threads[k].Producer? == r.threads[i].Producer?
                        && r.threads[k].status == Awakened
  {
    StartInv(s);
    RunKeepsInv(s, run);
    var r := Run(s, run);
    CountHas(r.threads, i);
    var k := CountFind(r.threads, r.threads[i].Producer?, Awakened);
  }

  /** No deadlock: while a producer and a consumer are unfinished, some thread can run. */
  lemma NoDeadlock(s: State, run: seq<Action>, p: nat, c: nat) returns (i: nat)
    requires Starts(s) && CanRun(s, run)
    requires var r := Run(s, run);
             && p < |r.threads| && r.threads[p].Producer? && r.threads[p].status != Finished
             && c < |r.threads| && r.threads[c].Consumer? && r.threads[c].status != Finished
    ensures Runnable(Run(s, run), i)
  {
    StartInv(s);
    RunKeepsInv(s, run);
    var r := Run(s, run);
    if Runnable(r, p) {
      return p;
    }
    if Runnable(r, c) {
      return c;
    }
    CountHas(r.threads, p);
    CountHas(r.threads, c);
    if Room(r) > 0 {
      i := CountFind(r.threads, true, Awakened);
    } else {
      i := CountFind(r.threads, false, Awakened);
    }
  }

  /** A runnable thread can always take its step: the signal finds a target or there is none. */
  lemma RunnableCanPass(s: State, i: nat) returns (a: Action)
    requires Inv(s) && Runnable(s, i)
    ensures a.Pass? && a.i == i && Allowed(s, a)
  {
    if MustWait(s, i) {
      a := Pass(i, None);
    } else if k :| 0 <= k < |s.threads| && Waits(s, k, s.threads[i].Consumer?) {
      a := Pass(i, Some(k));
    } else {
      a := Pass(i, None);
    }
  }

  // ---- Every run is bounded ------------------------------------------------------------------

  /** Work ahead of a thread: six per item to put, one while it is runnable. */
  function Weight(t: Thread): nat {
    (if t.Producer? then 6 * |t.todo| else 0) + (if t.status == Ready || t.status == Awakened then 1 else 0)
  }

  function Weights(threads: seq<Thread>): nat {
    if threads == [] then 0 else Weight(threads[0]) + Weights(threads[1..])
  }

  function Measure(s: State): nat { Weights(s.threads) + 3 * |s.buffer| }

  lemma {:induction false} WeightsUpdate(threads: seq<Thread>, i: nat, t: Thread)
    requires i < |threads|
    ensures Weights(threads[i := t]) + Weight(threads[i]) == Weights(threads) + Weight(t)
  {
    if i == 0 {
      assert threads[i := t][1..] == threads[1..];
    } else {
      assert threads[i := t][0] == threads[0] && threads[i := t][1..] == threads[1..][i - 1 := t];
      WeightsUpdate(threads[1..], i - 1, t);
    }
  }

  lemma StepMeasure(s: State, a: Action)
    requires Inv(s) && Allowed(s, a)
    ensures a.Pass? ==> Measure(Apply(s, a)) < Measure(s)
    ensures a.Spurious? ==> Measure(Apply(s, a)) == Measure(s) + 1
  {
    match a
    case Spurious(i) => WeightsUpdate(s.threads, i, s.threads[i].(status := Awakened));
    case Pass(i, wake) =>
      if MustWait(s, i) {
        WeightsUpdate(s.threads, i, s.threads[i].(status := Waiting));
      } else {
        var t := if s.threads[i].Producer? then AfterPut(s.threads[i]) else AfterGet(s.threads[i], s.buffer[0]);
        WeightsUpdate(s.threads, i, t);
        if wake.Some? {
          var mid := s.threads[i := t];
          WeightsUpdate(mid, wake.value, mid[wake.value].(status := Awakened));
        }
      }
  }

  function SpuriousWakeups(run: seq<Action>): nat {
    if run == [] then 0 else (if run[0].Spurious? then 1 else 0) + SpuriousWakeups(run[1..])
  }

  /** Apart from spurious wakeups, a run cannot go on for ever. */
  lemma {:induction false} RunsAreBounded(s: State, run: seq<Action>)
    requires Inv(s) && CanRun(s, run)
    ensures |run| <= Measure(s) + 2 * SpuriousWakeups(run)
    decreases |run|
  {
    if run != [] {
      StepMeasure(s, run[0]);
      StepKeepsInv(s, run[0]);
      RunsAreBounded(Apply(s, run[0]), run[1..]);
    }
  }

  // ---- One producer, one consumer --------------------------------------------------------------

  const ITEMS: nat := 50

  /** What the producer puts: 0 to 49, then OVER. */
  function Program(): seq<int> {
    seq(ITEMS, i => i) + [OVER]
  }

  function OneToOne(): State {
    State([], [Producer(Ready, Program()), Consumer(Ready, [])], [], [])
  }

  ghost predicate PairInv(s: State) {
    && Inv(s) && |s.threads| == 2 && s.threads[0].Producer? && s.threads[1].Consumer?
    && s.produced + s.threads[0].todo == Program()
    && s.threads[1].got == s.consumed
    && (s.threads[0].status == Finished <==> s.threads[0].todo == [])
    && (s.threads[1].status == Finished <==> OVER in s.consumed)
  }

  lemma StepKeepsPair(s: State, a: Action)
    requires PairInv(s) && Allowed(s, a)
    ensures PairInv(Apply(s, a))
  {
    StepKeepsInv(s, a);
    var after := Apply(s, a);
    if a.Pass? && a.i == 0 && !MustWait(s, 0) {
      var todo := s.threads[0].todo;
      assert todo == [todo[0]] + todo[1..];
      assert after.produced + after.threads[0].todo == s.produced + todo;
    }
  }

  lemma {:induction false} RunKeepsPair(s: State, run: seq<Action>)
    requires PairInv(s) && CanRun(s, run)
    ensures PairInv(Run(s, run))
    decreases |run|
  {
    if run != [] {
      StepKeepsPair(s, run[0]);
      RunKeepsPair(Apply(s, run[0]), run[1..]);
    }
  }

  /** A prefix of the program that holds OVER is all of it. */
  lemma OverIsLast(got: seq<int>)
    requires got <= Program() && OVER in got
    ensures got == Program()
  {
    var k :| 0 <= k < |got| && got[k] == OVER;
    assert got[k] == Program()[k];
  }

  lemma OneToOneMeasure()
    ensures Measure(OneToOne()) == 6 * (ITEMS + 1) + 2
  {
    var threads := OneToOne().threads;
    assert threads[1..] == [Consumer(Ready, [])] && threads[1..][1..] == [];
  }

  lemma PairReceives(s: State)
    requires PairInv(s)
    ensures s.threads[1].got <= Program() && (s.threads[1].status == Finished ==> s.threads[1].got == Program())
  {
    assert s.consumed <= s.consumed + (s.buffer + s.threads[0].todo) == Program();
    if s.threads[1].status == Finished {
      OverIsLast(s.consumed);
    }
  }

  /**
   In every interleaving the consumer has received a prefix of what the producer puts; when it
   stops it has received exactly 0 to 49 and then OVER; and some thread can run until both stop.
   */
  lemma OneToOneCorrect(run: seq<Action>)
    requires CanRun(OneToOne(), run)
    ensures var s := Run(OneToOne(), run);
            && |s.threads| == 2 && s.threads[1].Consumer? && s.threads[1].got <= Program()
            && (s.threads[1].status == Finished ==> s.threads[1].got == Program())
            && ((exists i :: Runnable(s, i)) || (s.threads[0].status == Finished && s.threads[1].status == Finished))
            && |run| <= 6 * (ITEMS + 1) + 2 + 2 * SpuriousWakeups(run)
  {
    var s0 := OneToOne();
    StartInv(s0);
    OneToOneMeasure();
    RunsAreBounded(s0, run);
    RunKeepsPair(s0, run);
    var s := Run(s0, run);
    PairReceives(s);
    if !Runnable(s, 0) && !Runnable(s, 1) {
      PairStuckIsDone(s);
    }
  }

  /** With nobody to run, the consumer cannot be left waiting, and then the producer is done too. */
  lemma PairStuckIsDone(s: State)
    requires PairInv(s) && !Runnable(s, 0) && !Runnable(s, 1)
    ensures s.threads[0].status == Finished && s.threads[1].status == Finished
  {
    if Count(s.threads, true, Awakened) > 0 {
      var k := CountFind(s.threads, true, Awakened);
    }
    if Count(s.threads, false, Awakened) > 0 {
      var k := CountFind(s.threads, false, Awakened);
    }
    CountHas(s.threads, 0);
    CountHas(s.threads, 1);
    assert Program()[ITEMS] == OVER;
    if s.buffer == [] && s.threads[0].status == Finished {
      assert s.consumed == Program();
    }
    assert s.threads[1].status == Finished;
    assert s.consumed <= s.consumed + (s.buffer + s.threads[0].todo) == Program();
    OverIsLast(s.consumed);
    assert |s.buffer + s.threads[0].todo| == 0;
  }
}
