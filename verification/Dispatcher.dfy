/**
 main's event loop, the two work queues and the workers as an interleaved step system. The
 invariant says that a descriptor is named by exactly one task while its slot's work_flag is set
 and by none otherwise; everything main relies on follows from it.
 */
module Dispatcher {
  import opened Options
  import opened QueueSpec
  import opened ClientTable
  import opened WorkQueue

  const QUEUE_CAPACITY: nat := 1000

  /** Scanning is the worker's search for the slot whose flag it clears, at index j. */
  datatype Worker = Idle | Running(task: Task) | Scanning(task: Task, j: nat) | Gone

  datatype State = State(
    slots: seq<Slot>,
    open: set<int>,
    io: seq<Task>,
    shell: seq<Task>,
    ioWorkers: seq<Worker>,
    shellWorkers: seq<Worker>,
    stopping: bool)

  predicate IsIO(order: int) { order == 4 || order == 5 }

  predicate IsExit(t: Task) { t.workId == -1 }

  // ---- What main does --------------------------------------------------------------------

  function Occupy(slots: seq<Slot>, fd: int): seq<Slot> {
    var k := FirstWith(slots, -1);
    if k < |slots| then slots[k := slots[k].(fd := fd, workFlag := true)] else slots
  }

  function SetFlag(slots: seq<Slot>, fd: int): seq<Slot> {
    var k := FirstWith(slots, fd);
    if k < |slots| then slots[k := slots[k].(workFlag := true)] else slots
  }

  function Release(slots: seq<Slot>, fd: int): seq<Slot> {
    var k := FirstWith(slots, fd);
    if k < |slots| then slots[k := FREE] else slots
  }

  predicate IsWorking(slots: seq<Slot>, fd: int) {
    var k := FirstWith(slots, fd);
    k < |slots| && slots[k].workFlag
  }

  /** give_child_task: the result of queue_insert is not looked at. */
  function Give(s: State, t: Task): State {
    if IsIO(t.workId)
    then s.(io := InsertTask(s.io, t, Some(QUEUE_CAPACITY)))
    else s.(shell := InsertTask(s.shell, t, Some(QUEUE_CAPACITY)))
  }

  /** A new connection; `arrived` is false when its first message does not arrive whole. */
  function Accept(s: State, t: Task, arrived: bool): State {
    if !arrived then s
    else Give(s.(slots := Occupy(s.slots, t.fd), open := s.open + {t.fd}), t)
  }

  function Readable(s: State, t: Task, arrived: bool): State {
    if IsWorking(s.slots, t.fd) then s
    else if !arrived then s.(slots := Release(s.slots, t.fd), open := s.open - {t.fd})
    else Give(s.(slots := SetFlag(s.slots, t.fd)), t)
  }

  function Exit(s: State): State {
    s.(io := [EXIT_MARKER] + s.io, shell := [EXIT_MARKER] + s.shell, stopping := true)
  }

  // ---- What a worker does ----------------------------------------------------------------

  /** Woken with an empty queue, or by the exit marker, the worker ends. */
  function Next(q: seq<Task>): (Worker, seq<Task>) {
    if q == [] then (Gone, q) else (if IsExit(q[0]) then Gone else Running(q[0]), q[1..])
  }

  function ScanStep(slots: seq<Slot>, t: Task, j: nat): (Worker, seq<Slot>) {
    if j >= |slots| then (Idle, slots)
    else if slots[j].fd == t.fd then (Idle, slots[j := slots[j].(workFlag := false)])
    else (Scanning(t, j + 1), slots)
  }

  function WorkerStep(w: Worker, q: seq<Task>, slots: seq<Slot>): (Worker, seq<Task>, seq<Slot>) {
    match w
    case Idle => (Next(q).0, Next(q).1, slots)
    case Running(t) => (Scanning(t, 0), q, slots)
    case Scanning(t, j) => (ScanStep(slots, t, j).0, q, ScanStep(slots, t, j).1)
    case Gone => (Gone, q, slots)
  }

  // ---- Steps and runs --------------------------------------------------------------------

  datatype Action =
    | DoAccept(t: Task, arrived: bool)
    | DoReadable(t: Task, arrived: bool)
    | DoExit
    | IOWorker(i: nat)
    | ShellWorker(i: nat)

  /** accept returns a descriptor that is not open; no more than TCP_CAPACITY connections are. */
  predicate Allowed(s: State, a: Action) {
    match a
    case DoAccept(t, _) => !s.stopping && t.fd >= 0 && t.fd !in s.open && |s.open| < TCP_CAPACITY && !IsExit(t)
    case DoReadable(t, _) => !s.stopping && t.fd in s.open && !IsExit(t)
    case DoExit => !s.stopping
    case IOWorker(i) => i < |s.ioWorkers|
    case ShellWorker(i) => i < |s.shellWorkers|
  }

  function Apply(s: State, a: Action): State
    requires Allowed(s, a)
  {
    match a
    case DoAccept(t, arrived) => Accept(s, t, arrived)
    case DoReadable(t, arrived) => Readable(s, t, arrived)
    case DoExit => Exit(s)
    case IOWorker(i) =>
      var (w, q, slots) := WorkerStep(s.ioWorkers[i], s.io, s.slots);
      s.(ioWorkers := s.ioWorkers[i := w], io := q, slots := slots)
    case ShellWorker(i) =>
      var (w, q, slots) := WorkerStep(s.shellWorkers[i], s.shell, s.slots);
      s.(shellWorkers := s.shellWorkers[i := w], shell := q, slots := slots)
  }

  predicate CanRun(s: State, run: seq<Action>)
    decreases |run|
  {
    run == [] || (Allowed(s, run[0]) && CanRun(Apply(s, run[0]), run[1..]))
  }

  function Run(s: State, run: seq<Action>): State
    requires CanRun(s, run)
    decreases |run|
  {
    if run == [] then s else Run(Apply(s, run[0]), run[1..])
  }

  function Initial(ioWorkers: nat, shellWorkers: nat): State {
    State(seq(TCP_CAPACITY, _ => FREE), {}, [], [],
          seq(ioWorkers, _ => Idle), seq(shellWorkers, _ => Idle), false)
  }

  // ---- Who names a descriptor --------------------------------------------------------------

  function TaskCount(t: Task, fd: int): nat {
    if !IsExit(t) && t.fd == fd then 1 else 0
  }

  function QueueCount(q: seq<Task>, fd: int): nat {
    if q == [] then 0 else TaskCount(q[0], fd) + QueueCount(q[1..], fd)
  }

  function WorkerCount(w: Worker, fd: int): nat {
    if w.Running? || w.Scanning? then TaskCount(w.task, fd) else 0
  }

  function WorkersCount(ws: seq<Worker>, fd: int): nat {
    if ws == [] then 0 else WorkerCount(ws[0], fd) + WorkersCount(ws[1..], fd)
  }

  /** The number of tasks for a descriptor, queued or held by a worker. */
  function Live(s: State, fd: int): nat {
    QueueCount(s.io, fd) + QueueCount(s.shell, fd) + WorkersCount(s.ioWorkers, fd) + WorkersCount(s.shellWorkers, fd)
  }

  function Busy(slots: seq<Slot>): set<int> {
    set k | 0 <= k < |slots| && slots[k].fd != -1 && slots[k].workFlag :: slots[k].fd
  }

  ghost predicate ScansOk(slots: seq<Slot>, ws: seq<Worker>) {
    forall i :: 0 <= i < |ws| && ws[i].Scanning? ==>
      !IsExit(ws[i].task) && ws[i].j <= |slots| && forall k :: 0 <= k < ws[i].j ==> slots[k].fd != ws[i].task.fd
  }

  ghost predicate TableOk(slots: seq<Slot>, open: set<int>) {
    |slots| == TCP_CAPACITY && Distinct(slots) && open == Fds(slots)
  }

  ghost predicate Balanced(s: State) {
    forall fd :: Live(s, fd) == if fd in Busy(s.slots) then 1 else 0
  }

  ghost predicate RunsOk(ws: seq<Worker>) {
    forall i :: 0 <= i < |ws| && ws[i].Running? ==> !IsExit(ws[i].task)
  }

  ghost predicate QueuesOk(s: State) {
    && (!s.stopping ==> forall t :: t in s.io || t in s.shell ==> !IsExit(t))
    && (forall t :: t in s.io && !IsExit(t) ==> IsIO(t.workId))
    && (forall t :: t in s.shell && !IsExit(t) ==> !IsIO(t.workId))
  }

  ghost predicate Inv(s: State) {
    && TableOk(s.slots, s.open)
    && Balanced(s)
    && ScansOk(s.slots, s.ioWorkers) && ScansOk(s.slots, s.shellWorkers)
    && RunsOk(s.ioWorkers) && RunsOk(s.shellWorkers)
    && QueuesOk(s)
  }

  lemma {:induction false} QueueCountConcat(a: seq<Task>, b: seq<Task>, fd: int)
    ensures QueueCount(a + b, fd) == QueueCount(a, fd) + QueueCount(b, fd)
  {
    if a == [] {
      assert a + b == b;
    } else {
      assert (a + b)[0] == a[0] && (a + b)[1..] == a[1..] + b;
      QueueCountConcat(a[1..], b, fd);
    }
  }

  lemma QueueCountOne(t: Task, fd: int)
    ensures QueueCount([t], fd) == TaskCount(t, fd)
  {
    assert [t][1..] == [];
  }

  /** A queue that names every descriptor of a set at most once, and no other, is no longer than the set. */
  lemma {:induction false} QueueFitsIn(q: seq<Task>, busy: set<int>)
    requires forall t :: t in q ==> !IsExit(t)
    requires forall fd :: QueueCount(q, fd) <= if fd in busy then 1 else 0
    ensures |q| <= |busy|
  {
    if q != [] {
      assert q[0] in q;
      var rest := busy - {q[0].fd};
      assert QueueCount(q, q[0].fd) >= 1;
      forall fd ensures QueueCount(q[1..], fd) <= if fd in rest then 1 else 0 {
        assert QueueCount(q, fd) == TaskCount(q[0], fd) + QueueCount(q[1..], fd);
      }
      QueueFitsIn(q[1..], rest);
    }
  }

  lemma {:induction false} QueueCountHas(q: seq<Task>, t: Task)
    requires t in q && !IsExit(t)
    ensures QueueCount(q, t.fd) >= 1
  {
    if q[0] != t {
      QueueCountHas(q[1..], t);
    }
  }

  lemma {:induction false} WorkersCountUpdate(ws: seq<Worker>, i: nat, w: Worker, fd: int)
    requires i < |ws|
    ensures WorkersCount(ws[i := w], fd) + WorkerCount(ws[i], fd) == WorkersCount(ws, fd) + WorkerCount(w, fd)
  {
    if i == 0 {
      assert ws[i := w][1..] == ws[1..];
    } else {
      assert ws[i := w][0] == ws[0] && ws[i := w][1..] == ws[1..][i - 1 := w];
      WorkersCountUpdate(ws[1..], i - 1, w, fd);
    }
  }

  lemma {:induction false} WorkersCountHas(ws: seq<Worker>, i: nat, fd: int)
    requires i < |ws|
    ensures WorkerCount(ws[i], fd) <= WorkersCount(ws, fd)
  {
    if i > 0 {
      WorkersCountHas(ws[1..], i - 1, fd);
    }
  }

  // ---- The table -------------------------------------------------------------------------

  /** The effect of changing one slot on who is connected and who is busy. */
  lemma SlotChanged(slots: seq<Slot>, k: nat, slot: Slot)
    requires Distinct(slots) && k < |slots|
    requires slot.fd == slots[k].fd || slots[k].fd == -1 || slot.fd == -1
    requires slot.fd != slots[k].fd ==> slot.fd !in Fds(slots)
    ensures var after := slots[k := slot];
            && Distinct(after)
            && Fds(after) == Fds(slots) - {slots[k].fd} + (if slot.fd == -1 then {} else {slot.fd})
            && Busy(after) == Busy(slots) - {slots[k].fd} + (if slot.fd == -1 || !slot.workFlag then {} else {slot.fd})
  {
    var after := slots[k := slot];
    forall i | 0 <= i < |slots| && slots[i].fd != -1 ensures slots[i].fd in Fds(slots) {
    }
    forall f ensures f in Fds(after) <==> f in Fds(slots) - {slots[k].fd} + (if slot.fd == -1 then {} else {slot.fd}) {
      if f in Fds(after) {
        var i :| 0 <= i < |after| && after[i].fd != -1 && after[i].fd == f;
        assert i == k || slots[i].fd == f;
      }
      if f in Fds(slots) && f != slots[k].fd {
        var i :| 0 <= i < |slots| && slots[i].fd != -1 && slots[i].fd == f;
        assert after[i].fd == f;
      }
      assert after[k].fd == slot.fd;
    }
    forall f
      ensures f in Busy(after) <==>
              f in Busy(slots) - {slots[k].fd} + (if slot.fd == -1 || !slot.workFlag then {} else {slot.fd})
    {
      if f in Busy(after) {
        var i :| 0 <= i < |after| && after[i].fd != -1 && after[i].workFlag && after[i].fd == f;
        assert i == k || slots[i].fd == f;
      }
      if f in Busy(slots) && f != slots[k].fd {
        var i :| 0 <= i < |slots| && slots[i].fd != -1 && slots[i].workFlag && slots[i].fd == f;
        assert after[i].fd == f && after[i].workFlag;
      }
      assert after[k] == slot;
    }
  }

  lemma BusyIsConnected(slots: seq<Slot>)
    ensures Busy(slots) <= Fds(slots)
  {
  }

  lemma FlagIffBusy(slots: seq<Slot>, k: nat)
    requires Distinct(slots) && k < |slots| && slots[k].fd != -1
    ensures slots[k].workFlag <==> slots[k].fd in Busy(slots)
  {
    if slots[k].fd in Busy(slots) {
      var i :| 0 <= i < |slots| && slots[i].fd != -1 && slots[i].workFlag && slots[i].fd == slots[k].fd;
    }
  }

  lemma WorkingIffBusy(slots: seq<Slot>, fd: int)
    requires Distinct(slots) && fd in Fds(slots)
    ensures FirstWith(slots, fd) < |slots|
    ensures IsWorking(slots, fd) <==> fd in Busy(slots)
  {
    var i :| 0 <= i < |slots| && slots[i].fd != -1 && slots[i].fd == fd;
    FlagIffBusy(slots, FirstWith(slots, fd));
  }

  lemma FreeSlotExists(slots: seq<Slot>)
    requires Distinct(slots) && |Fds(slots)| < |slots|
    ensures FirstWith(slots, -1) < |slots|
  {
    if FirstWith(slots, -1) == |slots| {
      FullTable(slots);
    }
  }

  // ---- The invariant ---------------------------------------------------------------------

  lemma {:induction false} NoneHeld(ws: seq<Worker>, fd: int)
    requires forall i :: 0 <= i < |ws| ==> ws[i] == Idle
    ensures WorkersCount(ws, fd) == 0
  {
    if ws != [] {
      NoneHeld(ws[1..], fd);
    }
  }

  lemma InitialInv(ioWorkers: nat, shellWorkers: nat)
    ensures Inv(Initial(ioWorkers, shellWorkers))
  {
    var s := Initial(ioWorkers, shellWorkers);
    assert Fds(s.slots) == {} && Busy(s.slots) == {};
    forall fd ensures Live(s, fd) == 0 {
      NoneHeld(s.ioWorkers, fd);
      NoneHeld(s.shellWorkers, fd);
    }
  }

  /** A descriptor has exactly one task when its flag is set and none when it is not. */
  lemma ExactlyOneTask(s: State, fd: int)
    requires Inv(s) && fd in s.open
    ensures Live(s, fd) == if IsWorking(s.slots, fd) then 1 else 0
  {
    WorkingIffBusy(s.slots, fd);
  }

  /** Queued tasks are no more than the busy connections. */
  lemma QueuesFit(s: State)
    requires Inv(s) && !s.stopping
    ensures |s.io| + |s.shell| <= |Busy(s.slots)|
  {
    var q := s.io + s.shell;
    forall fd ensures QueueCount(q, fd) <= if fd in Busy(s.slots) then 1 else 0 {
      QueueCountConcat(s.io, s.shell, fd);
      assert Live(s, fd) == if fd in Busy(s.slots) then 1 else 0;
    }
    QueueFitsIn(q, Busy(s.slots));
  }

  lemma SubsetSize(a: set<int>, b: set<int>)
    requires a <= b
    ensures |a| <= |b|
  {
    assert a + (b - a) == b;
  }

  lemma BusyBound(s: State, fd: int)
    requires Inv(s) && (fd in s.open ==> fd !in Busy(s.slots)) && (fd !in s.open ==> |s.open| < TCP_CAPACITY)
    ensures |Busy(s.slots)| < TCP_CAPACITY
  {
    BusyIsConnected(s.slots);
    if fd in s.open {
      FdsBound(s.slots);
      SubsetSize(Busy(s.slots) + {fd}, s.open);
    } else {
      SubsetSize(Busy(s.slots), s.open);
    }
  }

  /** At every dispatch both queues have room: the result of queue_insert never matters. */
  lemma InsertNeverRejects(s: State, a: Action)
    requires Inv(s) && Allowed(s, a)
    requires a.DoAccept? || (a.DoReadable? && !IsWorking(s.slots, a.t.fd))
    ensures |s.io| < QUEUE_CAPACITY && |s.shell| < QUEUE_CAPACITY
  {
    if a.DoReadable? {
      WorkingIffBusy(s.slots, a.t.fd);
    }
    BusyBound(s, a.t.fd);
    QueuesFit(s);
  }

  lemma ScansKept(slots: seq<Slot>, after: seq<Slot>, ws: seq<Worker>)
    requires ScansOk(slots, ws) && |after| == |slots|
    requires forall i, k :: 0 <= i < |ws| && ws[i].Scanning? && 0 <= k < ws[i].j ==>
               after[k].fd == slots[k].fd || after[k].fd != ws[i].task.fd
    ensures ScansOk(after, ws)
  {
  }

  /** No scan is for a descriptor that nothing names. */
  lemma NoScanFor(s: State, ws: seq<Worker>, fd: int)
    requires ws == s.ioWorkers || ws == s.shellWorkers
    requires Live(s, fd) == 0 && ScansOk(s.slots, ws)
    ensures forall i :: 0 <= i < |ws| && ws[i].Scanning? ==> ws[i].task.fd != fd
  {
    forall i | 0 <= i < |ws| && ws[i].Scanning? ensures ws[i].task.fd != fd {
      WorkersCountHas(ws, i, fd);
    }
  }

  lemma GiveAdds(s: State, t: Task, fd: int)
    requires !IsExit(t) && |s.io| < QUEUE_CAPACITY && |s.shell| < QUEUE_CAPACITY
    ensures Live(Give(s, t), fd) == Live(s, fd) + TaskCount(t, fd)
    ensures Give(s, t) == if IsIO(t.workId) then s.(io := s.io + [t]) else s.(shell := s.shell + [t])
  {
    QueueCountConcat(s.io, [t], fd);
    QueueCountConcat(s.shell, [t], fd);
    QueueCountOne(t, fd);
  }

  /** Setting the flag of a connection that is not busy and queueing its task keep the balance. */
  lemma DispatchKeepsInv(s: State, mid: State, t: Task)
    requires Inv(s) && !s.stopping && !IsExit(t) && |s.io| < QUEUE_CAPACITY && |s.shell| < QUEUE_CAPACITY
    requires mid == s.(slots := mid.slots, open := mid.open) && TableOk(mid.slots, mid.open)
    requires Busy(mid.slots) == Busy(s.slots) + {t.fd} && t.fd !in Busy(s.slots)
    requires ScansOk(mid.slots, s.ioWorkers) && ScansOk(mid.slots, s.shellWorkers)
    ensures Inv(Give(mid, t))
  {
    forall fd ensures Live(Give(mid, t), fd) == if fd in Busy(mid.slots) then 1 else 0 {
      GiveAdds(mid, t, fd);
      assert Live(mid, fd) == Live(s, fd);
    }
    GiveAdds(mid, t, 0);
  }

  lemma OccupyTable(slots: seq<Slot>, open: set<int>, fd: int)
    requires TableOk(slots, open) && fd >= 0 && fd !in open && |open| < TCP_CAPACITY
    ensures TableOk(Occupy(slots, fd), open + {fd}) && Busy(Occupy(slots, fd)) == Busy(slots) + {fd}
  {
    FreeSlotExists(slots);
    var k := FirstWith(slots, -1);
    SlotChanged(slots, k, slots[k].(fd := fd, workFlag := true));
  }

  lemma OccupyKeepsScans(slots: seq<Slot>, fd: int, ws: seq<Worker>)
    requires ScansOk(slots, ws) && FirstWith(slots, -1) < |slots|
    requires forall i :: 0 <= i < |ws| && ws[i].Scanning? ==> ws[i].task.fd != fd
    ensures ScansOk(Occupy(slots, fd), ws)
  {
    ScansKept(slots, Occupy(slots, fd), ws);
  }

  lemma OccupyEffect(s: State, fd: int)
    requires Inv(s) && fd >= 0 && fd !in s.open && |s.open| < TCP_CAPACITY
    ensures var after := Occupy(s.slots, fd);
            && TableOk(after, s.open + {fd}) && Busy(after) == Busy(s.slots) + {fd} && fd !in Busy(s.slots)
            && ScansOk(after, s.ioWorkers) && ScansOk(after, s.shellWorkers)
  {
    OccupyTable(s.slots, s.open, fd);
    FreeSlotExists(s.slots);
    BusyIsConnected(s.slots);
    assert Live(s, fd) == 0;
    NoScanFor(s, s.ioWorkers, fd);
    NoScanFor(s, s.shellWorkers, fd);
    OccupyKeepsScans(s.slots, fd, s.ioWorkers);
    OccupyKeepsScans(s.slots, fd, s.shellWorkers);
  }

  lemma AcceptKeepsInv(s: State, t: Task, arrived: bool)
    requires Inv(s) && Allowed(s, DoAccept(t, arrived))
    ensures Inv(Accept(s, t, arrived))
  {
    if arrived {
      InsertNeverRejects(s, DoAccept(t, arrived));
      OccupyEffect(s, t.fd);
      DispatchKeepsInv(s, s.(slots := Occupy(s.slots, t.fd), open := s.open + {t.fd}), t);
    }
  }

  lemma ReleaseKeepsInv(s: State, fd: int)
    requires Inv(s) && fd in s.open && !IsWorking(s.slots, fd)
    ensures Inv(s.(slots := Release(s.slots, fd), open := s.open - {fd}))
  {
    WorkingIffBusy(s.slots, fd);
    SlotChanged(s.slots, FirstWith(s.slots, fd), FREE);
    var after := s.(slots := Release(s.slots, fd), open := s.open - {fd});
    NoNegativeScan(s, s.ioWorkers);
    NoNegativeScan(s, s.shellWorkers);
    ScansKept(s.slots, after.slots, s.ioWorkers);
    ScansKept(s.slots, after.slots, s.shellWorkers);
    assert Busy(after.slots) == Busy(s.slots);
    forall f ensures Live(after, f) == if f in Busy(after.slots) then 1 else 0 {
      assert Live(s, f) == Live(after, f);
    }
  }

  lemma SetFlagTable(slots: seq<Slot>, open: set<int>, fd: int)
    requires TableOk(slots, open) && fd in open
    ensures TableOk(SetFlag(slots, fd), open) && Busy(SetFlag(slots, fd)) == Busy(slots) + {fd}
  {
    WorkingIffBusy(slots, fd);
    var k := FirstWith(slots, fd);
    SlotChanged(slots, k, slots[k].(workFlag := true));
  }

  lemma ReadableKeepsInv(s: State, t: Task, arrived: bool)
    requires Inv(s) && Allowed(s, DoReadable(t, arrived))
    ensures Inv(Readable(s, t, arrived))
  {
    if IsWorking(s.slots, t.fd) {
    } else if !arrived {
      ReleaseKeepsInv(s, t.fd);
    } else {
      WorkingIffBusy(s.slots, t.fd);
      InsertNeverRejects(s, DoReadable(t, arrived));
      SetFlagTable(s.slots, s.open, t.fd);
      var mid := s.(slots := SetFlag(s.slots, t.fd));
      ScansKept(s.slots, mid.slots, s.ioWorkers);
      ScansKept(s.slots, mid.slots, s.shellWorkers);
      DispatchKeepsInv(s, mid, t);
    }
  }

  lemma NoNegativeScan(s: State, ws: seq<Worker>)
    requires Inv(s) && (ws == s.ioWorkers || ws == s.shellWorkers)
    ensures forall i :: 0 <= i < |ws| && ws[i].Scanning? ==> ws[i].task.fd != -1
  {
    assert Live(s, -1) == 0;
    NoScanFor(s, ws, -1);
  }

  lemma ExitKeepsInv(s: State)
    requires Inv(s) && !s.stopping
    ensures Inv(Exit(s))
  {
    forall fd ensures Live(Exit(s), fd) == if fd in Busy(s.slots) then 1 else 0 {
      QueueCountConcat([EXIT_MARKER], s.io, fd);
      QueueCountConcat([EXIT_MARKER], s.shell, fd);
      QueueCountOne(EXIT_MARKER, fd);
      assert Live(s, fd) == if fd in Busy(s.slots) then 1 else 0;
    }
  }

  /** A worker's search for its slot never runs off the table. */
  lemma ScanFinds(s: State, ws: seq<Worker>, i: nat)
    requires Inv(s) && (ws == s.ioWorkers || ws == s.shellWorkers) && i < |ws| && ws[i].Scanning?
    ensures ws[i].j < |s.slots| && ws[i].task.fd in Busy(s.slots)
    ensures ws[i].j <= FirstWith(s.slots, ws[i].task.fd) < |s.slots|
  {
    var fd := ws[i].task.fd;
    WorkersCountHas(ws, i, fd);
    assert Live(s, fd) >= 1;
    BusyIsConnected(s.slots);
    WorkingIffBusy(s.slots, fd);
  }

  lemma ScanEffect(s: State, ws: seq<Worker>, i: nat)
    requires Inv(s) && (ws == s.ioWorkers || ws == s.shellWorkers) && i < |ws| && ws[i].Scanning?
    ensures var t := ws[i].task;
            var (w, after) := ScanStep(s.slots, t, ws[i].j);
            && TableOk(after, s.open) && (forall k :: 0 <= k < |after| ==> after[k].fd == s.slots[k].fd)
            && t.fd in Busy(s.slots) && !IsExit(t)
            && Busy(after) == (if w.Idle? then Busy(s.slots) - {t.fd} else Busy(s.slots))
            && (w == Idle || w == Scanning(t, ws[i].j + 1))
            && ScansOk(after, ws[i := w])
  {
    ScanFinds(s, ws, i);
    var t, j := ws[i].task, ws[i].j;
    if s.slots[j].fd == t.fd {
      BusyIsConnected(s.slots);
      SlotChanged(s.slots, j, s.slots[j].(workFlag := false));
    }
  }

  /** The part of a worker's step that both kinds of worker share. */
  lemma WorkerStepEffect(s: State, ws: seq<Worker>, q: seq<Task>, i: nat)
    requires Inv(s) && i < |ws|
    requires (ws == s.ioWorkers && q == s.io) || (ws == s.shellWorkers && q == s.shell)
    ensures var (w, q', slots') := WorkerStep(ws[i], q, s.slots);
            && TableOk(slots', s.open) && (forall k :: 0 <= k < |slots'| ==> slots'[k].fd == s.slots[k].fd)
            && (forall fd ::
                  WorkerCount(w, fd) + QueueCount(q', fd) + (if fd in Busy(s.slots) then 1 else 0) ==
                  WorkerCount(ws[i], fd) + QueueCount(q, fd) + (if fd in Busy(slots') then 1 else 0))
            && ScansOk(slots', ws[i := w])
            && (w.Running? ==> !IsExit(w.task))
            && (forall t :: t in q' ==> t in q)
  {
    if ws[i].Scanning? {
      ScanEffect(s, ws, i);
    }
  }

  lemma IOWorkerKeepsInv(s: State, i: nat)
    requires Inv(s) && i < |s.ioWorkers|
    ensures Inv(Apply(s, IOWorker(i)))
  {
    var after := Apply(s, IOWorker(i));
    WorkerStepEffect(s, s.ioWorkers, s.io, i);
    ScansKept(s.slots, after.slots, s.shellWorkers);
    forall fd ensures Live(after, fd) == if fd in Busy(after.slots) then 1 else 0 {
      WorkersCountUpdate(s.ioWorkers, i, after.ioWorkers[i], fd);
      assert Live(s, fd) == if fd in Busy(s.slots) then 1 else 0;
    }
  }

  lemma ShellWorkerKeepsInv(s: State, i: nat)
    requires Inv(s) && i < |s.shellWorkers|
    ensures Inv(Apply(s, ShellWorker(i)))
  {
    var after := Apply(s, ShellWorker(i));
    WorkerStepEffect(s, s.shellWorkers, s.shell, i);
    ScansKept(s.slots, after.slots, s.ioWorkers);
    forall fd ensures Live(after, fd) == if fd in Busy(after.slots) then 1 else 0 {
      WorkersCountUpdate(s.shellWorkers, i, after.shellWorkers[i], fd);
      assert Live(s, fd) == if fd in Busy(s.slots) then 1 else 0;
    }
  }

  lemma StepKeepsInv(s: State, a: Action)
    requires Inv(s) && Allowed(s, a)
    ensures Inv(Apply(s, a))
  {
    match a
    case DoAccept(t, arrived) => AcceptKeepsInv(s, t, arrived);
    case DoReadable(t, arrived) => ReadableKeepsInv(s, t, arrived);
    case DoExit => ExitKeepsInv(s);
    case IOWorker(i) => IOWorkerKeepsInv(s, i);
    case ShellWorker(i) => ShellWorkerKeepsInv(s, i);
  }

  lemma {:induction false} RunKeepsInv(s: State, run: seq<Action>)
    requires Inv(s) && CanRun(s, run)
    ensures Inv(Run(s, run))
    decreases |run|
  {
    if run != [] {
      StepKeepsInv(s, run[0]);
      RunKeepsInv(Apply(s, run[0]), run[1..]);
    }
  }

  // ---- What it is for ----------------------------------------------------------------------

  predicate Uses(w: Worker, fd: int) {
    (w.Running? || w.Scanning?) && !IsExit(w.task) && w.task.fd == fd
  }

  /** Some queued task, or what some worker holds, is for this descriptor. */
  ghost predicate Names(s: State, fd: int) {
    || (exists t :: (t in s.io || t in s.shell) && !IsExit(t) && t.fd == fd)
    || (exists i :: 0 <= i < |s.ioWorkers| && Uses(s.ioWorkers[i], fd))
    || (exists i :: 0 <= i < |s.shellWorkers| && Uses(s.shellWorkers[i], fd))
  }

  lemma NamedIsLive(s: State, fd: int)
    requires Names(s, fd)
    ensures Live(s, fd) >= 1
  {
    if t :| (t in s.io || t in s.shell) && !IsExit(t) && t.fd == fd {
      if t in s.io {
        QueueCountHas(s.io, t);
      } else {
        QueueCountHas(s.shell, t);
      }
    } else if i :| 0 <= i < |s.ioWorkers| && Uses(s.ioWorkers[i], fd) {
      WorkersCountHas(s.ioWorkers, i, fd);
    } else {
      var i :| 0 <= i < |s.shellWorkers| && Uses(s.shellWorkers[i], fd);
      WorkersCountHas(s.shellWorkers, i, fd);
    }
  }

  /**
   Exclusive ownership in every reachable state: the tasks for a descriptor, queued or held by a
   worker, are one while it is connected with its flag set, and none otherwise.
   */
  lemma ExclusiveOwnership(ioWorkers: nat, shellWorkers: nat, run: seq<Action>, fd: int)
    requires CanRun(Initial(ioWorkers, shellWorkers), run)
    ensures var s := Run(Initial(ioWorkers, shellWorkers), run);
            Live(s, fd) == if fd in s.open && IsWorking(s.slots, fd) then 1 else 0
  {
    InitialInv(ioWorkers, shellWorkers);
    RunKeepsInv(Initial(ioWorkers, shellWorkers), run);
    var s := Run(Initial(ioWorkers, shellWorkers), run);
    BusyIsConnected(s.slots);
    if fd in s.open {
      ExactlyOneTask(s, fd);
    }
  }

  /**
   In every reachable state: when main reads a client's socket or frees its slot, no task names the
   descriptor, so no worker uses it; when accept hands out a descriptor, no old task names it; and
   both queues have room for one more.
   */
  lemma SafeInEveryRun(ioWorkers: nat, shellWorkers: nat, run: seq<Action>, a: Action)
    requires CanRun(Initial(ioWorkers, shellWorkers), run)
    requires var s := Run(Initial(ioWorkers, shellWorkers), run);
             Allowed(s, a) && (a.DoAccept? || (a.DoReadable? && !IsWorking(s.slots, a.t.fd)))
    ensures var s := Run(Initial(ioWorkers, shellWorkers), run);
            !Names(s, a.t.fd) && |s.io| < QUEUE_CAPACITY && |s.shell| < QUEUE_CAPACITY
  {
    InitialInv(ioWorkers, shellWorkers);
    RunKeepsInv(Initial(ioWorkers, shellWorkers), run);
    var s := Run(Initial(ioWorkers, shellWorkers), run);
    InsertNeverRejects(s, a);
    BusyIsConnected(s.slots);
    if a.DoReadable? {
      WorkingIffBusy(s.slots, a.t.fd);
    }
    if Names(s, a.t.fd) {
      NamedIsLive(s, a.t.fd);
    }
  }

  // ---- Every message is handed to a worker ---------------------------------------------------

  /**
   The message has been handed over: its client's flag is set, and the task, with its descriptor, order and
   option, is the last one of the io queue if it is a gets or a puts (4 or 5) and of the shell queue otherwise.
   The other queue, the workers and everybody else's flags are as they were.
   */
  ghost predicate Dispatched(s: State, after: State, t: Task) {
    && t.fd in after.open && IsWorking(after.slots, t.fd)
    && after.io == s.io + (if t.workId in {4, 5} then [t] else [])
    && after.shell == s.shell + (if t.workId in {4, 5} then [] else [t])
    && after.ioWorkers == s.ioWorkers && after.shellWorkers == s.shellWorkers && after.stopping == s.stopping
    && after.open == s.open + {t.fd}
    && forall fd :: fd in s.open && fd != t.fd ==> IsWorking(after.slots, fd) == IsWorking(s.slots, fd)
  }

  /** The message that main reads whole in a step: a first one, or one of a client that no worker is busy with. */
  predicate Arrives(s: State, a: Action) {
    (a.DoAccept? && a.arrived) || (a.DoReadable? && a.arrived && !IsWorking(s.slots, a.t.fd))
  }

  lemma FlagsOf(slots: seq<Slot>, open: set<int>, after: seq<Slot>, afterOpen: set<int>, fd: int)
    requires TableOk(slots, open) && TableOk(after, afterOpen) && afterOpen == open + {fd}
    requires Busy(after) == Busy(slots) + {fd}
    ensures IsWorking(after, fd)
    ensures forall f :: f in open && f != fd ==> IsWorking(after, f) == IsWorking(slots, f)
  {
    WorkingIffBusy(after, fd);
    forall f | f in open && f != fd ensures IsWorking(after, f) == IsWorking(slots, f) {
      WorkingIffBusy(slots, f);
      WorkingIffBusy(after, f);
    }
  }

  lemma GivenIsDispatched(s: State, mid: State, t: Task)
    requires !IsExit(t) && |s.io| < QUEUE_CAPACITY && |s.shell| < QUEUE_CAPACITY
    requires TableOk(s.slots, s.open) && TableOk(mid.slots, mid.open)
    requires mid == s.(slots := mid.slots, open := s.open + {t.fd}) && Busy(mid.slots) == Busy(s.slots) + {t.fd}
    ensures Dispatched(s, Give(mid, t), t)
  {
    FlagsOf(s.slots, s.open, mid.slots, mid.open, t.fd);
    GiveAdds(mid, t, t.fd);
  }

  /** What the dispatch relies on: the table, and room in the queues. */
  ghost predicate HasRoom(s: State) {
    TableOk(s.slots, s.open) && |s.io| < QUEUE_CAPACITY && |s.shell| < QUEUE_CAPACITY
  }

  lemma AcceptHandsOver(s: State, t: Task)
    requires HasRoom(s) && !IsExit(t) && t.fd >= 0 && t.fd !in s.open && |s.open| < TCP_CAPACITY
    ensures Dispatched(s, Accept(s, t, true), t)
  {
    OccupyTable(s.slots, s.open, t.fd);
    GivenIsDispatched(s, s.(slots := Occupy(s.slots, t.fd), open := s.open + {t.fd}), t);
  }

  lemma ReadableHandsOver(s: State, t: Task)
    requires HasRoom(s) && !IsExit(t) && t.fd in s.open && !IsWorking(s.slots, t.fd)
    ensures Dispatched(s, Readable(s, t, true), t)
  {
    SetFlagTable(s.slots, s.open, t.fd);
    assert s.open + {t.fd} == s.open;
    GivenIsDispatched(s, s.(slots := SetFlag(s.slots, t.fd)), t);
  }

  lemma ArrivalIsDispatched(s: State, a: Action)
    requires Inv(s) && Allowed(s, a) && Arrives(s, a)
    ensures Dispatched(s, Apply(s, a), a.t)
  {
    InsertNeverRejects(s, a);
    if a.DoAccept? {
      AcceptHandsOver(s, a.t);
    } else {
      ReadableHandsOver(s, a.t);
    }
  }

  /**
   In every reachable state: a message that arrives whole is handed over. A client that a worker is busy with is
   not read and nothing changes, so the message stays in its socket; where nothing arrives, an idle client is
   disconnected, and a new one is not taken in.
   */
  lemma EveryMessageIsDispatched(ioWorkers: nat, shellWorkers: nat, run: seq<Action>, a: Action)
    requires CanRun(Initial(ioWorkers, shellWorkers), run)
    requires Allowed(Run(Initial(ioWorkers, shellWorkers), run), a) && (a.DoAccept? || a.DoReadable?)
    ensures var s := Run(Initial(ioWorkers, shellWorkers), run);
            var after := Apply(s, a);
            && (Arrives(s, a) ==> Dispatched(s, after, a.t))
            && (a.DoReadable? && IsWorking(s.slots, a.t.fd) ==> after == s)
            && (!a.arrived && a.DoAccept? ==> after == s)
            && (!a.arrived && a.DoReadable? && !IsWorking(s.slots, a.t.fd) ==>
                  after == s.(slots := after.slots, open := s.open - {a.t.fd}) && Fds(after.slots) == after.open)
  {
    InitialInv(ioWorkers, shellWorkers);
    RunKeepsInv(Initial(ioWorkers, shellWorkers), run);
    var s := Run(Initial(ioWorkers, shellWorkers), run);
    StepKeepsInv(s, a);
    if Arrives(s, a) {
      ArrivalIsDispatched(s, a);
    }
  }

  /** A queue without the exit markers. */
  function Tasks(q: seq<Task>): seq<Task> {
    if q == [] then [] else (if IsExit(q[0]) then [] else [q[0]]) + Tasks(q[1..])
  }

  lemma {:induction false} TasksConcat(a: seq<Task>, b: seq<Task>)
    ensures Tasks(a + b) == Tasks(a) + Tasks(b)
  {
    if a == [] {
      assert a + b == b;
    } else {
      assert (a + b)[0] == a[0] && (a + b)[1..] == a[1..] + b;
      TasksConcat(a[1..], b);
    }
  }

  /** The message that a step reads for the workers of the one or the other kind. */
  function ReadFor(s: State, a: Action, io: bool): seq<Task> {
    if Arrives(s, a) && (a.t.workId in {4, 5}) == io then [a.t] else []
  }

  /** The task that a worker of that kind begins with in a step. */
  function TakenBy(s: State, a: Action, io: bool): seq<Task>
    requires Allowed(s, a)
  {
    if a.IOWorker? && io && s.ioWorkers[a.i].Idle? && Apply(s, a).ioWorkers[a.i].Running?
    then [Apply(s, a).ioWorkers[a.i].task]
    else if a.ShellWorker? && !io && s.shellWorkers[a.i].Idle? && Apply(s, a).shellWorkers[a.i].Running?
    then [Apply(s, a).shellWorkers[a.i].task]
    else []
  }

  function AllRead(s: State, run: seq<Action>, io: bool): seq<Task>
    requires CanRun(s, run)
    decreases |run|
  {
    if run == [] then [] else ReadFor(s, run[0], io) + AllRead(Apply(s, run[0]), run[1..], io)
  }

  function AllTaken(s: State, run: seq<Action>, io: bool): seq<Task>
    requires CanRun(s, run)
    decreases |run|
  {
    if run == [] then [] else TakenBy(s, run[0], io) + AllTaken(Apply(s, run[0]), run[1..], io)
  }

  function QueueOf(s: State, io: bool): seq<Task> { if io then s.io else s.shell }

  lemma WorkerTakesFirst(w: Worker, q: seq<Task>, slots: seq<Slot>)
    ensures var (w', q', _) := WorkerStep(w, q, slots);
            Tasks(q) == (if w.Idle? && w'.Running? then [w'.task] else []) + Tasks(q')
  {
  }

  lemma DispatchAppends(s: State, after: State, t: Task, io: bool)
    requires Dispatched(s, after, t) && !IsExit(t)
    ensures Tasks(QueueOf(after, io)) == Tasks(QueueOf(s, io)) + (if (t.workId in {4, 5}) == io then [t] else [])
  {
    var q := QueueOf(s, io);
    TasksConcat(q, [t]);
    assert [t][1..] == [] && q + [] == q;
  }

  /** What a step reads goes to the end of its queue, and what a worker begins with comes from the front. */
  lemma StepIsFirstInFirstOut(s: State, a: Action, io: bool)
    requires Inv(s) && Allowed(s, a)
    ensures Tasks(QueueOf(s, io)) + ReadFor(s, a, io) == TakenBy(s, a, io) + Tasks(QueueOf(Apply(s, a), io))
  {
    if Arrives(s, a) {
      ArrivalIsDispatched(s, a);
      DispatchAppends(s, Apply(s, a), a.t, io);
    } else {
      OtherStepsAddNothing(s, a, io);
    }
  }

  lemma OtherStepsAddNothing(s: State, a: Action, io: bool)
    requires Allowed(s, a) && !Arrives(s, a)
    ensures Tasks(QueueOf(s, io)) == TakenBy(s, a, io) + Tasks(QueueOf(Apply(s, a), io))
  {
    match a {
      case DoAccept(t, arrived) =>
      case DoReadable(t, arrived) =>
      case DoExit => TasksConcat([EXIT_MARKER], QueueOf(s, io));
      case IOWorker(i) => WorkerTakesFirst(s.ioWorkers[i], s.io, s.slots);
      case ShellWorker(i) => WorkerTakesFirst(s.shellWorkers[i], s.shell, s.slots);
    }
  }

  lemma {:induction false} RunIsFirstInFirstOut(s: State, run: seq<Action>, io: bool)
    requires Inv(s) && CanRun(s, run)
    ensures Tasks(QueueOf(s, io)) + AllRead(s, run, io) == AllTaken(s, run, io) + Tasks(QueueOf(Run(s, run), io))
    decreases |run|
  {
    if run != [] {
      var next := Apply(s, run[0]);
      StepIsFirstInFirstOut(s, run[0], io);
      StepKeepsInv(s, run[0]);
      RunIsFirstInFirstOut(next, run[1..], io);
      Regroup(
        Tasks(QueueOf(s, io)), ReadFor(s, run[0], io), AllRead(next, run[1..], io), TakenBy(s, run[0], io),
        Tasks(QueueOf(next, io)), AllTaken(next, run[1..], io), Tasks(QueueOf(Run(next, run[1..]), io)));
    }
  }

  lemma Regroup<T>(a: seq<T>, b: seq<T>, c: seq<T>, x: seq<T>, y: seq<T>, z: seq<T>, w: seq<T>)
    requires a + b == x + y && y + c == z + w
    ensures a + (b + c) == (x + z) + w
  {
    assert a + (b + c) == (a + b) + c == x + (y + c) == x + (z + w) == (x + z) + w;
  }

  /**
   Over every run from the start, also past the exit signal: the messages with orders 4 and 5, in the order in
   which they were read, are those that io workers have begun with, in order, followed by those waiting in the io
   queue; likewise all other messages and the shell workers. None is lost, doubled, changed or overtaken.
   */
  lemma MessagesAreServedInOrder(ioWorkers: nat, shellWorkers: nat, run: seq<Action>)
    requires CanRun(Initial(ioWorkers, shellWorkers), run)
    ensures var s, end := Initial(ioWorkers, shellWorkers), Run(Initial(ioWorkers, shellWorkers), run);
            && AllRead(s, run, true) == AllTaken(s, run, true) + Tasks(end.io)
            && AllRead(s, run, false) == AllTaken(s, run, false) + Tasks(end.shell)
  {
    InitialInv(ioWorkers, shellWorkers);
    RunIsFirstInFirstOut(Initial(ioWorkers, shellWorkers), run, true);
    RunIsFirstInFirstOut(Initial(ioWorkers, shellWorkers), run, false);
  }

  // ---- What exit brings about ----------------------------------------------------------------

  /** The last elements of a queue, in order. */
  predicate EndOf(q: seq<Task>, all: seq<Task>) {
    |q| <= |all| && q == all[|all| - |q|..]
  }

  ghost predicate SomeGone(ws: seq<Worker>) { exists i :: 0 <= i < |ws| && ws[i].Gone? }

  /** Nothing is added any more; the marker is the first to be taken, and has ended the worker that took it. */
  ghost predicate Closing(q: seq<Task>, ws: seq<Worker>, before: seq<Task>) {
    EndOf(q, [EXIT_MARKER] + before) && (|q| <= |before| ==> SomeGone(ws))
  }

  lemma StepKeepsClosing(ws: seq<Worker>, q: seq<Task>, slots: seq<Slot>, i: nat, before: seq<Task>)
    requires i < |ws| && Closing(q, ws, before)
    ensures var (w, q', _) := WorkerStep(ws[i], q, slots);
            Closing(q', ws[i := w], before)
  {
    var (w, q', _) := WorkerStep(ws[i], q, slots);
    var all := [EXIT_MARKER] + before;
    if q != [] {
      assert all[|all| - |q|..][1..] == all[|all| - |q| + 1..];
    }
    if SomeGone(ws) {
      var k :| 0 <= k < |ws| && ws[k].Gone?;
      assert ws[i := w][k].Gone?;
    } else if ws[i].Idle? {
      assert q == [EXIT_MARKER] + before;
      assert ws[i := w][i].Gone? && q' == before;
    }
  }

  lemma {:induction false} RunKeepsClosing(before: State, s: State, run: seq<Action>)
    requires s.stopping && s.open == before.open && CanRun(s, run)
    requires Closing(s.io, s.ioWorkers, before.io) && Closing(s.shell, s.shellWorkers, before.shell)
    ensures var after := Run(s, run);
            && after.stopping && after.open == before.open
            && Closing(after.io, after.ioWorkers, before.io) && Closing(after.shell, after.shellWorkers, before.shell)
    decreases |run|
  {
    if run != [] {
      match run[0] {
        case IOWorker(i) => StepKeepsClosing(s.ioWorkers, s.io, s.slots, i, before.io);
        case ShellWorker(i) => StepKeepsClosing(s.shellWorkers, s.shell, s.slots, i, before.shell);
      }
      RunKeepsClosing(before, Apply(s, run[0]), run[1..]);
    }
  }

  /**
   After the exit signal no step adds a task, opens or closes a connection. Of each queue, what is left is at
   every moment the last part of the marker followed by the tasks that were waiting; so these go on being
   taken in order, and none is taken before a worker of that queue has taken the marker and ended.
   */
  lemma AfterExit(s: State, run: seq<Action>)
    requires !s.stopping && CanRun(Exit(s), run)
    ensures var after := Run(Exit(s), run);
            && after.stopping && after.open == s.open
            && Closing(after.io, after.ioWorkers, s.io) && Closing(after.shell, after.shellWorkers, s.shell)
  {
    var exit := Exit(s);
    assert exit.io[0..] == exit.io && exit.shell[0..] == exit.shell;
    RunKeepsClosing(s, exit, run);
  }

  // ---- The loop bodies, on the table and the queues themselves ----------------------------------

  function ClearFlag(slots: seq<Slot>, fd: int): seq<Slot> {
    var k := FirstWith(slots, fd);
    if k < |slots| then slots[k := slots[k].(workFlag := false)] else slots
  }

  /** Undisturbed, the steps of a scan come to what one search and one assignment do. */
  function ScanToEnd(slots: seq<Slot>, t: Task, j: nat): seq<Slot>
    decreases |slots| - j
  {
    var (w, after) := ScanStep(slots, t, j);
    if w.Scanning? then ScanToEnd(after, t, w.j) else after
  }

  lemma {:induction false} ScanIsClearFlag(slots: seq<Slot>, t: Task, j: nat)
    requires j <= FirstWith(slots, t.fd)
    ensures ScanToEnd(slots, t, j) == ClearFlag(slots, t.fd)
    decreases |slots| - j
  {
    if j < |slots| && slots[j].fd != t.fd {
      ScanIsClearFlag(slots, t, j + 1);
    }
  }

  class MainLoop {
    const slots: array<Slot>
    const io: Queue
    const shell: Queue
    var open: set<int>
    var stopping: bool

    ghost function View(): State
      reads this, slots, io, io.nodes, shell, shell.nodes
    {
      State(slots[..], open, io.Contents(), shell.Contents(), [], [], stopping)
    }

    /** Until the exit signal the tails are good whenever they are followed; afterwards nothing follows them. */
    ghost predicate Valid()
      reads this, io, io.Repr, shell, shell.Repr
    {
      && io.Linked() && shell.Linked() && io.Repr !! shell.Repr
      && io.capacity == shell.capacity == Some(QUEUE_CAPACITY)
      && {this, slots} !! io.Repr + shell.Repr
      && (!stopping ==> io.TailValid() && shell.TailValid())
    }

    /** server_init: every slot free, both queues empty. */
    constructor ()
      ensures Valid() && fresh(slots) && fresh(io.Repr) && fresh(shell.Repr)
      ensures View() == Initial(0, 0)
    {
      slots := new Slot[TCP_CAPACITY](_ => FREE);
      io := new Queue(Some(QUEUE_CAPACITY));
      shell := new Queue(Some(QUEUE_CAPACITY));
      open, stopping := {}, false;
      new;
      assert slots[..] == seq(TCP_CAPACITY, _ => FREE);
    }

    method IsClientWork(fd: int) returns (r: int)
      ensures r == 1 <==> IsWorking(slots[..], fd)
      ensures r == -1 <==> FirstWith(slots[..], fd) == slots.Length
      ensures r in {-1, 0, 1}
    {
      var j := FindSlot(slots, fd);
      if j < slots.Length {
        return if slots[j].workFlag then 1 else 0;
      }
      r := -1;
    }

    method GiveChildTask(t: Task)
      requires Valid() && !stopping
      modifies io.Repr, shell.Repr
      ensures Valid() && fresh(io.Repr - old(io.Repr)) && fresh(shell.Repr - old(shell.Repr))
      ensures View() == Give(old(View()), t)
    {
      if t.workId != 4 && t.workId != 5 {
        EnqueueBeside(shell, io, t);
      } else {
        EnqueueBeside(io, shell, t);
      }
    }

    /** The calloc and the insert. */
    static method Enqueue(q: Queue, t: Task)
      requires q.Linked() && q.TailValid()
      modifies q.Repr
      ensures q.Linked() && q.TailValid() && fresh(q.Repr - old(q.Repr))
      ensures q.Contents() == InsertTask(old(q.Contents()), t, q.capacity)
    {
      var node := new Node(t.fd, t.workId, t.option);
      var _ := q.Insert(node);
    }

    /** The same, beside another queue. */
    static method EnqueueBeside(q: Queue, ghost other: Queue, t: Task)
      requires q.Linked() && q.TailValid() && other.Linked() && q.Repr !! other.Repr
      modifies q.Repr
      ensures q.Linked() && q.TailValid() && fresh(q.Repr - old(q.Repr))
      ensures q.Contents() == InsertTask(old(q.Contents()), t, q.capacity)
      ensures q.Repr !! other.Repr && Untouched(other)
    {
      ghost var others := other.Repr;
      Enqueue(q, t);
      assert unchanged(others);
      OthersUntouched(other);
    }

    static twostate lemma OthersUntouched(q: Queue)
      requires old(q.Linked()) && unchanged(old(q.Repr))
      ensures Untouched(q)
    {
    }

    /** What is done elsewhere does not matter to a queue. */
    static twostate predicate Untouched(q: Queue)
      reads q, q.nodes, q.Repr
    {
      && q.Linked() && q.TailValid() == old(q.TailValid())
      && q.Contents() == old(q.Contents()) && q.Repr == old(q.Repr)
    }

    /** Writing to the table: the queues are elsewhere. */
    method SetSlot(j: nat, slot: Slot)
      requires Valid() && j < slots.Length
      modifies slots
      ensures Valid() && View() == old(View()).(slots := old(slots[..])[j := slot])
      ensures io.Repr == old(io.Repr) && shell.Repr == old(shell.Repr)
    {
      ghost var queues := io.Repr + shell.Repr;
      slots[j] := slot;
      assert unchanged(queues);
      OthersUntouched(io);
      OthersUntouched(shell);
    }

    /** The connection gets the first free slot. */
    method Connect(fd: int)
      requires Valid()
      modifies this`open, slots
      ensures Valid() && View() == old(View()).(slots := Occupy(old(slots[..]), fd), open := old(open) + {fd})
      ensures io.Repr == old(io.Repr) && shell.Repr == old(shell.Repr)
    {
      var j := FindSlot(slots, -1);
      if j < slots.Length {
        SetSlot(j, slots[j].(fd := fd, workFlag := true));
      }
      SetOpen(open + {fd});
    }

    /** Its slot is free again. */
    method Disconnect(fd: int)
      requires Valid()
      modifies this`open, slots
      ensures Valid() && View() == old(View()).(slots := Release(old(slots[..]), fd), open := old(open) - {fd})
      ensures io.Repr == old(io.Repr) && shell.Repr == old(shell.Repr)
    {
      var j := FindSlot(slots, fd);
      if j < slots.Length {
        SetSlot(j, FREE);
      }
      SetOpen(open - {fd});
    }

    method MarkBusy(fd: int)
      requires Valid()
      modifies slots
      ensures Valid() && View() == old(View()).(slots := SetFlag(old(slots[..]), fd))
      ensures io.Repr == old(io.Repr) && shell.Repr == old(shell.Repr)
    {
      var j := FindSlot(slots, fd);
      if j < slots.Length {
        SetSlot(j, slots[j].(workFlag := true));
      }
    }

    method SetOpen(fds: set<int>)
      requires Valid()
      modifies this`open
      ensures Valid() && View() == old(View()).(open := fds)
      ensures io.Repr == old(io.Repr) && shell.Repr == old(shell.Repr)
    {
      open := fds;
    }

    method AcceptClient(t: Task, arrived: bool)
      requires Valid() && !stopping
      modifies this`open, slots, io.Repr, shell.Repr
      ensures Valid() && fresh(io.Repr - old(io.Repr)) && fresh(shell.Repr - old(shell.Repr))
      ensures View() == Accept(old(View()), t, arrived)
      ensures arrived && HasRoom(old(View())) && !IsExit(t)
              && 0 <= t.fd && t.fd !in old(open) && |old(open)| < TCP_CAPACITY ==>
                Dispatched(old(View()), View(), t)
    {
      ghost var s := View();
      if HasRoom(s) && !IsExit(t) && 0 <= t.fd && t.fd !in s.open && |s.open| < TCP_CAPACITY {
        AcceptHandsOver(s, t);
      }
      if arrived {
        Connect(t.fd);
        GiveChildTask(t);
      }
    }

    method ClientReadable(t: Task, arrived: bool)
      requires Valid() && !stopping
      modifies this`open, slots, io.Repr, shell.Repr
      ensures Valid() && fresh(io.Repr - old(io.Repr)) && fresh(shell.Repr - old(shell.Repr))
      ensures View() == Readable(old(View()), t, arrived)
      ensures arrived && HasRoom(old(View())) && !IsExit(t)
              && t.fd in old(open) && !IsWorking(old(slots[..]), t.fd) ==>
                Dispatched(old(View()), View(), t)
    {
      ghost var s := View();
      if HasRoom(s) && !IsExit(t) && t.fd in s.open && !IsWorking(s.slots, t.fd) {
        ReadableHandsOver(s, t);
      }
      var working := IsClientWork(t.fd);
      if working == 1 {
        return;
      }
      if !arrived {
        Disconnect(t.fd);
      } else {
        Dispatch(t);
      }
    }

    method Dispatch(t: Task)
      requires Valid() && !stopping
      modifies slots, io.Repr, shell.Repr
      ensures Valid() && fresh(io.Repr - old(io.Repr)) && fresh(shell.Repr - old(shell.Repr))
      ensures View() == Give(old(View()).(slots := SetFlag(old(slots[..]), t.fd)), t)
    {
      MarkBusy(t.fd);
      GiveChildTask(t);
    }

    /** The markers go in front of what is linked; the tail of a queue that was empty is left stale. */
    method ExitSignal()
      requires Valid() && !stopping
      modifies this`stopping, io, io.head, shell, shell.head
      ensures Valid() && View() == Exit(old(View()))
      ensures io.nodes[1..] == old(io.nodes) && shell.nodes[1..] == old(shell.nodes)
      ensures io.TailValid() <==> old(io.nodes) != []
      ensures shell.TailValid() <==> old(shell.nodes) != []
    {
      Stop();
      MarkBeside(io, shell);
      MarkBeside(shell, io);
    }

    method Stop()
      requires Valid()
      modifies this`stopping
      ensures Valid() && View() == old(View()).(stopping := true)
      ensures Untouched(io) && Untouched(shell)
    {
      stopping := true;
      OthersUntouched(io);
      OthersUntouched(shell);
    }

    static method MarkBeside(q: Queue, ghost other: Queue)
      requires q.Linked() && q.TailValid() && other.Linked() && q.Repr !! other.Repr
      modifies q, q.head
      ensures q.Linked() && fresh(q.Repr - old(q.Repr))
      ensures q.Contents() == [EXIT_MARKER] + old(q.Contents())
      ensures q.nodes[1..] == old(q.nodes) && (q.TailValid() <==> old(q.nodes) != [])
      ensures q.Repr !! other.Repr && Untouched(other) && other.nodes == old(other.nodes)
    {
      ghost var others := other.Repr;
      Mark(q);
      assert unchanged(others);
      OthersUntouched(other);
    }

    static method Mark(q: Queue)
      requires q.Linked() && q.TailValid()
      modifies q, q.head
      ensures q.Linked() && fresh(q.Repr - old(q.Repr))
      ensures q.Contents() == [EXIT_MARKER] + old(q.Contents())
      ensures q.nodes[1..] == old(q.nodes) && (q.TailValid() <==> old(q.nodes) != [])
    {
      var _ := q.HeadInsertExit();
    }

    /** A worker of the one or the other kind takes its next task. */
    method TakeTask(fromIO: bool) returns (w: Worker)
      requires Valid()
      modifies io, io.head, shell, shell.head
      ensures Valid()
      ensures w == Next(if fromIO then old(View()).io else old(View()).shell).0
      ensures View() == if fromIO then old(View()).(io := Next(old(View()).io).1)
                        else old(View()).(shell := Next(old(View()).shell).1)
    {
      if fromIO {
        w := TakeBeside(io, shell);
      } else {
        w := TakeBeside(shell, io);
      }
    }

    static method TakeBeside(q: Queue, ghost other: Queue) returns (w: Worker)
      requires q.Linked() && other.Linked() && q.Repr !! other.Repr
      modifies q, q.head
      ensures q.Linked() && (old(q.TailValid()) ==> q.TailValid()) && q.Repr <= old(q.Repr)
      ensures (w, q.Contents()) == Next(old(q.Contents()))
      ensures q.Repr !! other.Repr && Untouched(other)
    {
      ghost var others := other.Repr;
      w := Take(q);
      assert unchanged(others);
      OthersUntouched(other);
    }

    /** Without a task, or with the exit marker, the worker ends. */
    static method Take(q: Queue) returns (w: Worker)
      requires q.Linked()
      modifies q, q.head
      ensures q.Linked() && (old(q.TailValid()) ==> q.TailValid()) && q.Repr <= old(q.Repr)
      ensures (w, q.Contents()) == Next(old(q.Contents()))
    {
      var _, node := q.Pop();
      if node == null {
        return Gone;
      }
      assert q.Contents() == old(q.Contents())[1..];
      if node.workId == -1 {
        return Gone;
      }
      w := Running(node.Task());
    }

    /** What a worker does to the table when its task is finished. */
    method FinishTask(fd: int)
      requires Valid()
      modifies slots
      ensures Valid() && View() == old(View()).(slots := ClearFlag(old(slots[..]), fd))
    {
      var j := FindSlot(slots, fd);
      if j < slots.Length {
        SetSlot(j, slots[j].(workFlag := false));
      }
    }
  }
}
