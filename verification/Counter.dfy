/**
  Two processes increment a shared number N times each, each increment being a
  load and a store, with nothing between them.
 */
module Counter {
  /** A process: stores done, and what it has loaded for the next one, if it has. */
  datatype Process = Process(stores: nat, loaded: bool, register: nat)

  datatype State = State(x: nat, first: Process, second: Process)

  /** Which of the two processes takes a step. */
  datatype Step = First | Second

  const START := State(0, Process(0, false, 0), Process(0, false, 0))

  predicate Done(p: Process, n: nat) { p.stores == n && !p.loaded }

  predicate Finished(s: State, n: nat) { Done(s.first, n) && Done(s.second, n) }

  function Stepping(s: State, step: Step): Process { if step.First? then s.first else s.second }

  predicate Can(s: State, step: Step, n: nat) {
    var p := Stepping(s, step);
    p.loaded || p.stores < n
  }

  function With(s: State, step: Step, x: nat, p: Process): State {
    if step.First? then State(x, p, s.second) else State(x, s.first, p)
  }

  /** A process with its increment half done stores; otherwise it loads. */
  function Apply(s: State, step: Step): State {
    var p := Stepping(s, step);
    if p.loaded then With(s, step, p.register + 1, Process(p.stores + 1, false, 0))
    else With(s, step, s.x, Process(p.stores, true, s.x))
  }

  predicate CanRun(s: State, steps: seq<Step>, n: nat)
    decreases |steps|
  {
    steps == [] || (Can(s, steps[0], n) && CanRun(Apply(s, steps[0]), steps[1..], n))
  }

  function Run(s: State, steps: seq<Step>): State
    decreases |steps|
  {
    if steps == [] then s else Run(Apply(s, steps[0]), steps[1..])
  }

  ghost predicate Reaches(s: State, t: State, n: nat) {
    exists steps :: CanRun(s, steps, n) && Run(s, steps) == t
  }

  /** The number ends at v in some interleaving of the two loops. */
  ghost predicate Attainable(v: nat, n: nat) {
    exists t: State :: Reaches(START, t, n) && Finished(t, n) && t.x == v
  }

  // ---- No interleaving loses more than all but two increments.

  /** The number does not exceed the stores, and it is positive after the first of them. */
  predicate ProcessInv(p: Process, total: nat, n: nat) {
    && p.stores <= n
    && (p.loaded ==> p.stores < n && p.register <= total && (p.stores > 0 ==> p.register >= 1))
  }

  predicate Inv(s: State, n: nat) {
    var total := s.first.stores + s.second.stores;
    && s.x <= total && (total > 0 ==> s.x >= 1)
    && ProcessInv(s.first, total, n) && ProcessInv(s.second, total, n)
    && (s.first.stores == s.second.stores == n >= 2 ==> s.x >= 2)
  }

  lemma StepKeepsInv(s: State, step: Step, n: nat)
    requires Inv(s, n) && Can(s, step, n)
    ensures Inv(Apply(s, step), n)
  {
  }

  lemma {:induction false} RunKeepsInv(s: State, steps: seq<Step>, n: nat)
    requires Inv(s, n) && CanRun(s, steps, n)
    ensures Inv(Run(s, steps), n)
    decreases |steps|
  {
    if steps != [] {
      StepKeepsInv(s, steps[0], n);
      RunKeepsInv(Apply(s, steps[0]), steps[1..], n);
    }
  }

  // ---- Schedules.

  lemma {:induction false} RunConcat(s: State, a: seq<Step>, b: seq<Step>, n: nat)
    requires CanRun(s, a, n) && CanRun(Run(s, a), b, n)
    ensures CanRun(s, a + b, n) && Run(s, a + b) == Run(Run(s, a), b)
    decreases |a|
  {
    if a == [] {
      assert a + b == b;
    } else {
      assert (a + b)[0] == a[0] && (a + b)[1..] == a[1..] + b;
      RunConcat(Apply(s, a[0]), a[1..], b, n);
    }
  }

  lemma Then(s: State, t: State, u: State, n: nat)
    requires Reaches(s, t, n) && Reaches(t, u, n)
    ensures Reaches(s, u, n)
  {
    var a :| CanRun(s, a, n) && Run(s, a) == t;
    var b :| CanRun(t, b, n) && Run(t, b) == u;
    RunConcat(s, a, b, n);
  }

  lemma ThenStep(s: State, t: State, step: Step, n: nat)
    requires Reaches(s, t, n) && Can(t, step, n)
    ensures Reaches(s, Apply(t, step), n)
  {
    var steps := [step];
    assert steps[1..] == [] && Run(Apply(t, step), []) == Apply(t, step) && CanRun(Apply(t, step), [], n);
    assert CanRun(t, steps, n) && Run(t, steps) == Run(Apply(t, step), steps[1..]);
    Then(s, t, Apply(t, step), n);
  }

  /** k whole iterations of one process. */
  function Iterated(s: State, step: Step, k: nat): State {
    With(s, step, s.x + k, Process(Stepping(s, step).stores + k, false, 0))
  }

  lemma {:induction false} ThenIterate(s: State, t: State, step: Step, k: nat, n: nat)
    requires Reaches(s, t, n)
    requires Stepping(t, step) == Process(Stepping(t, step).stores, false, 0) && Stepping(t, step).stores + k <= n
    ensures Reaches(s, Iterated(t, step, k), n)
  {
    if k == 0 {
      assert Iterated(t, step, 0) == t;
    } else {
      ThenIterate(s, t, step, k - 1, n);
      var u := Iterated(t, step, k - 1);
      ThenStep(s, u, step, n);
      ThenStep(s, Apply(u, step), step, n);
      assert Apply(Apply(u, step), step) == Iterated(t, step, k);
    }
  }

  /**
    First makes t and second u increments. First loads; second makes all its
    increments but one, which first's store undoes. Second loads; first makes
    all its increments, which second's last store undoes.
   */
  lemma Attain(t: nat, u: nat, n: nat)
    requires t < n && u < n
    ensures Attainable(t + u + 2, n)
  {
    assert CanRun(START, [], n) && Run(START, []) == START;
    ThenIterate(START, START, First, t, n);
    var a := Iterated(START, First, t);
    ThenIterate(START, a, Second, u, n);
    var b := Iterated(a, Second, u);
    ThenStep(START, b, First, n);
    var c := Apply(b, First);
    ThenIterate(START, c, Second, n - 1 - u, n);
    var d := Iterated(c, Second, n - 1 - u);
    ThenStep(START, d, First, n);
    var e := Apply(d, First);
    ThenStep(START, e, Second, n);
    var f := Apply(e, Second);
    ThenIterate(START, f, First, n - 1 - t, n);
    var g := Iterated(f, First, n - 1 - t);
    ThenStep(START, g, Second, n);
    var h := Apply(g, Second);
    assert Finished(h, n) && h.x == t + u + 2;
  }

  lemma AttainOne()
    ensures Attainable(1, 1)
  {
    assert CanRun(START, [], 1) && Run(START, []) == START;
    ThenStep(START, START, First, 1);
    var a := Apply(START, First);
    ThenStep(START, a, Second, 1);
    var b := Apply(a, Second);
    ThenStep(START, b, First, 1);
    var c := Apply(b, First);
    ThenStep(START, c, Second, 1);
    assert Finished(Apply(c, Second), 1) && Apply(c, Second).x == 1;
  }

  /** With two or more iterations the number can end at exactly the values from 2 to 2N. */
  lemma AttainableExactly(v: nat, n: nat)
    ensures Attainable(v, n) <==> (if n < 2 then n else 2) <= v <= 2 * n
  {
    if Attainable(v, n) {
      var t: State :| Reaches(START, t, n) && Finished(t, n) && t.x == v;
      var steps :| CanRun(START, steps, n) && Run(START, steps) == t;
      RunKeepsInv(START, steps, n);
    }
    if (if n < 2 then n else 2) <= v <= 2 * n {
      if n == 0 {
        assert CanRun(START, [], n) && Run(START, []) == START;
        assert Reaches(START, START, n) && Finished(START, n);
      } else if v == 1 {
        AttainOne();
      } else {
        var t := if v - 2 < n then v - 2 else n - 1;
        Attain(t, v - 2 - t, n);
      }
    }
  }
}

/** The same loops with each increment between a P and a V of a semaphore. */
module LockedCounter {
  datatype Place = Outside | Entered | Loaded | Stored

  datatype Process = Process(place: Place, stores: nat, register: nat)

  datatype State = State(x: nat, semaphore: nat, first: Process, second: Process)

  datatype Step = First | Second

  /** semctl sets the semaphore to 1. */
  const START := State(0, 1, Process(Outside, 0, 0), Process(Outside, 0, 0))

  predicate Finished(s: State, n: nat) {
    && s.first.place == Outside && s.first.stores == n
    && s.second.place == Outside && s.second.stores == n
  }

  function Stepping(s: State, step: Step): Process { if step.First? then s.first else s.second }

  /** P waits while the semaphore is 0. */
  predicate Can(s: State, step: Step, n: nat) {
    var p := Stepping(s, step);
    p.place != Outside || (p.stores < n && s.semaphore > 0)
  }

  function With(s: State, step: Step, x: nat, semaphore: nat, p: Process): State {
    if step.First? then State(x, semaphore, p, s.second) else State(x, semaphore, s.first, p)
  }

  function Apply(s: State, step: Step, n: nat): State
    requires Can(s, step, n)
  {
    var p := Stepping(s, step);
    match p.place
    case Outside => With(s, step, s.x, s.semaphore - 1, p.(place := Entered))
    case Entered => With(s, step, s.x, s.semaphore, p.(place := Loaded, register := s.x))
    case Loaded => With(s, step, p.register + 1, s.semaphore, p.(place := Stored, stores := p.stores + 1))
    case Stored => With(s, step, s.x, s.semaphore + 1, p.(place := Outside))
  }

  predicate CanRun(s: State, steps: seq<Step>, n: nat)
    decreases |steps|
  {
    steps == [] || (Can(s, steps[0], n) && CanRun(Apply(s, steps[0], n), steps[1..], n))
  }

  function Run(s: State, steps: seq<Step>, n: nat): State
    requires CanRun(s, steps, n)
    decreases |steps|
  {
    if steps == [] then s else Run(Apply(s, steps[0], n), steps[1..], n)
  }

  function Inside(p: Process): nat { if p.place == Outside then 0 else 1 }

  /** One process at most is inside, and what it has loaded is still the number. */
  predicate Inv(s: State, n: nat) {
    && s.semaphore + Inside(s.first) + Inside(s.second) == 1
    && s.x == s.first.stores + s.second.stores
    && ProcessInv(s.first, s.x, n) && ProcessInv(s.second, s.x, n)
  }

  predicate ProcessInv(p: Process, x: nat, n: nat) {
    && p.stores <= n && (p.place == Entered || p.place == Loaded ==> p.stores < n)
    && (p.place == Loaded ==> p.register == x)
  }

  /** The steps a process still has to take. */
  function Left(p: Process, n: nat): int {
    match p.place
    case Outside => 4 * (n - p.stores)
    case Entered => 4 * (n - p.stores) - 1
    case Loaded => 4 * (n - p.stores) - 2
    case Stored => 4 * (n - p.stores) + 1
  }

  lemma StepKeepsInv(s: State, step: Step, n: nat)
    requires Inv(s, n) && Can(s, step, n)
    ensures var t := Apply(s, step, n);
            Inv(t, n) && Left(t.first, n) + Left(t.second, n) == Left(s.first, n) + Left(s.second, n) - 1
  {
  }

  lemma {:induction false} RunKeepsInv(s: State, steps: seq<Step>, n: nat)
    requires Inv(s, n) && CanRun(s, steps, n)
    ensures var t := Run(s, steps, n);
            Inv(t, n) && Left(t.first, n) + Left(t.second, n) == Left(s.first, n) + Left(s.second, n) - |steps|
    decreases |steps|
  {
    if steps != [] {
      StepKeepsInv(s, steps[0], n);
      RunKeepsInv(Apply(s, steps[0], n), steps[1..], n);
    }
  }

  predicate Stuck(s: State, n: nat) { !Can(s, First, n) && !Can(s, Second, n) }

  lemma StuckIsFinished(s: State, n: nat)
    requires Inv(s, n)
    ensures Stuck(s, n) <==> Finished(s, n)
    ensures Finished(s, n) ==> s.x == 2 * n && Left(s.first, n) + Left(s.second, n) == 0
    ensures Left(s.first, n) >= 0 && Left(s.second, n) >= 0
  {
  }

  /** No run is stuck before the end, and the end is after 8N steps, at 2N. */
  lemma AlwaysTwiceN(steps: seq<Step>, n: nat)
    requires CanRun(START, steps, n)
    ensures var t := Run(START, steps, n);
            && Inside(t.first) + Inside(t.second) <= 1
            && |steps| <= 8 * n
            && (Stuck(t, n) <==> Finished(t, n))
            && (Finished(t, n) ==> |steps| == 8 * n && t.x == 2 * n)
  {
    RunKeepsInv(START, steps, n);
    StuckIsFinished(Run(START, steps, n), n);
  }
}
