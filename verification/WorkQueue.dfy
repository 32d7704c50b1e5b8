/** The work queue as a sequence: what queue_insert, queue_pop and the exit marker do to its contents. */
module QueueSpec {
  import opened Options
  import opened Sequences

  datatype Task = Task(fd: int, workId: int, option: string)

  const EXIT_MARKER := Task(-1, -1, "")

  /** No capacity is the build in which the macro is not defined: the queue never rejects. */
  predicate IsFull(q: seq<Task>, capacity: Option<nat>) {
    capacity.Some? && |q| == capacity.value
  }

  function InsertTask(q: seq<Task>, t: Task, capacity: Option<nat>): seq<Task> {
    if IsFull(q, capacity) then q else q + [t]
  }

  datatype Op = Insert(t: Task) | Pop

  /** A run of inserts and pops from `q`: the popped tasks, the accepted ones and the final contents. */
  function RunOps(q: seq<Task>, ops: seq<Op>, capacity: Option<nat>): (seq<Task>, seq<Task>, seq<Task>)
    decreases |ops|
  {
    if ops == [] then ([], [], q)
    else match ops[0]
      case Insert(t) =>
        var (popped, accepted, last) := RunOps(InsertTask(q, t, capacity), ops[1..], capacity);
        (popped, (if IsFull(q, capacity) then [] else [t]) + accepted, last)
      case Pop =>
        if q == [] then RunOps(q, ops[1..], capacity)
        else
          var (popped, accepted, last) := RunOps(q[1..], ops[1..], capacity);
          ([q[0]] + popped, accepted, last)
  }

  /** First in, first out: in every run the accepted tasks leave in order, none twice and none lost. */
  lemma {:induction false} FirstInFirstOut(q: seq<Task>, ops: seq<Op>, capacity: Option<nat>)
    ensures var (popped, accepted, last) := RunOps(q, ops, capacity);
            q + accepted == popped + last
    decreases |ops|
  {
    if ops != [] {
      match ops[0]
      case Insert(t) =>
        FirstInFirstOut(InsertTask(q, t, capacity), ops[1..], capacity);
        var (popped, accepted, last) := RunOps(InsertTask(q, t, capacity), ops[1..], capacity);
        if !IsFull(q, capacity) {
          Assoc(q, [t], accepted);
        }
      case Pop =>
        if q == [] {
          FirstInFirstOut(q, ops[1..], capacity);
        } else {
          FirstInFirstOut(q[1..], ops[1..], capacity);
          var (popped, accepted, last) := RunOps(q[1..], ops[1..], capacity);
          assert q == [q[0]] + q[1..];
          Assoc([q[0]], q[1..], accepted);
          Assoc([q[0]], popped, last);
        }
    }
  }

  /** With no insert in between, n pops yield the first n tasks in order. */
  lemma {:induction false} PopsInOrder(q: seq<Task>, n: nat, capacity: Option<nat>)
    ensures var pops := seq(n, _ => Pop);
            RunOps(q, pops, capacity) == (q[..if n <= |q| then n else |q|], [], q[if n <= |q| then n else |q|..])
    decreases n
  {
    var pops := seq(n, _ => Pop);
    if n > 0 {
      assert pops[1..] == seq(n - 1, _ => Pop);
      if q == [] {
        PopsInOrder(q, n - 1, capacity);
      } else {
        PopsInOrder(q[1..], n - 1, capacity);
        var m := if n <= |q| then n else |q|;
        assert q[..m] == [q[0]] + q[1..][..m - 1];
        assert q[m..] == q[1..][m - 1..];
      }
    }
  }

  /** After the exit marker goes to the front, the pops yield the marker and then the waiting tasks. */
  lemma ExitThenOldTasks(q: seq<Task>, n: nat, capacity: Option<nat>)
    requires n >= |q| + 1
    ensures RunOps([EXIT_MARKER] + q, seq(n, _ => Pop), capacity) == ([EXIT_MARKER] + q, [], [])
  {
    var all := [EXIT_MARKER] + q;
    PopsInOrder(all, n, capacity);
    assert all[..|all|] == all && all[|all|..] == [];
  }
}

/**
 The linked queue with a head node that carries no task. Popping the last task leaves `tail` on the
 popped node; `size` keeps that stale pointer from ever being followed.
 */
module WorkQueue {
  import opened Options
  import opened QueueSpec

  class Node {
    var fd: int
    var workId: int
    var option: string
    var next: Node?

    constructor (fd: int, workId: int, option: string)
      ensures this.fd == fd && this.workId == workId && this.option == option && next == null
    {
      this.fd, this.workId, this.option, next := fd, workId, option, null;
    }

    function Task(): Task
      reads this
    {
      QueueSpec.Task(fd, workId, option)
    }
  }

  ghost function TasksOf(nodes: seq<Node>): (tasks: seq<Task>)
    reads nodes
    ensures |tasks| == |nodes| && forall i :: 0 <= i < |nodes| ==> tasks[i] == nodes[i].Task()
  {
    seq(|nodes|, i requires 0 <= i < |nodes| reads nodes => nodes[i].Task())
  }

  lemma TasksFirst(nodes: seq<Node>)
    requires nodes != []
    ensures TasksOf(nodes) == [nodes[0].Task()] + TasksOf(nodes[1..])
  {
  }

  lemma TasksCons(first: Node, nodes: seq<Node>)
    ensures TasksOf([first] + nodes) == [first.Task()] + TasksOf(nodes)
  {
  }

  lemma TasksLast(nodes: seq<Node>, last: Node)
    ensures TasksOf(nodes + [last]) == TasksOf(nodes) + [last.Task()]
  {
  }

  /** The node that comes after position i, or null at the end. */
  ghost function Following(nodes: seq<Node>, i: int): Node?
    requires -1 <= i < |nodes|
  {
    if i + 1 == |nodes| then null else nodes[i + 1]
  }

  ghost predicate Apart(head: Node, nodes: seq<Node>) {
    head !in nodes && forall i, j :: 0 <= i < j < |nodes| ==> nodes[i] != nodes[j]
  }

  ghost predicate PointsOn(nodes: seq<Node>, i: nat)
    requires i < |nodes|
    reads nodes
  {
    nodes[i].next == Following(nodes, i)
  }

  /** The next pointers lead from the head node through exactly the nodes, to null. */
  ghost predicate Chained(head: Node, nodes: seq<Node>)
    reads head, nodes
  {
    head.next == Following(nodes, -1) && forall i :: 0 <= i < |nodes| ==> PointsOn(nodes, i)
  }

  class Queue {
    var head: Node
    var tail: Node
    var size: nat
    const capacity: Option<nat>
    ghost var nodes: seq<Node>
    ghost var Repr: set<object>

    /** head and the next pointers lead through exactly the nodes, to null. */
    ghost predicate Linked()
      reads this, Repr
    {
      && this in Repr && head in Repr && (forall n :: n in nodes ==> n in Repr)
      && size == |nodes| && Apart(head, nodes) && Chained(head, nodes)
    }

    /** tail is only meaningful, and only followed, when the queue is not empty. */
    ghost predicate TailValid()
      reads this
    {
      nodes != [] ==> tail == nodes[|nodes| - 1]
    }

    ghost function Contents(): seq<Task>
      reads this, nodes
    {
      TasksOf(nodes)
    }

    constructor (capacity: Option<nat>)
      ensures Linked() && TailValid() && Contents() == [] && fresh(Repr) && this.capacity == capacity
    {
      var first := new Node(0, 0, "");
      head, tail, size, nodes := first, first, 0, [];
      this.capacity := capacity;
      Repr := {this, first};
    }

    method Insert(ptr: Node) returns (r: int)
      requires Linked() && TailValid()
      requires ptr != head && ptr !in nodes && ptr.next == null
      modifies Repr
      ensures Linked() && TailValid() && head == old(head) && Repr <= old(Repr) + {ptr}
      ensures r == if IsFull(old(Contents()), capacity) then -1 else 1
      ensures Contents() == InsertTask(old(Contents()), old(ptr.Task()), capacity)
      ensures nodes == if r == 1 then old(nodes) + [ptr] else old(nodes)
    {
      if capacity.Some? && size == capacity.value {
        return -1;
      }
      Link(ptr);
      size := size + 1;
      nodes := nodes + [ptr];
      Repr := Repr + {ptr};
      r := 1;
    }

    /** The pointer assignments of an insert: tail is followed only when there is something in the queue. */
    method Link(ptr: Node)
      requires Linked() && TailValid() && ptr != head && ptr !in nodes && ptr.next == null
      modifies this`tail, head`next, nodes`next
      ensures Chained(head, nodes + [ptr]) && Apart(head, nodes + [ptr]) && tail == ptr && head == old(head)
      ensures TasksOf(nodes + [ptr]) == old(TasksOf(nodes)) + [old(ptr.Task())]
    {
      if size == 0 {
        head.next := ptr;
        tail := ptr;
      } else {
        tail.next := ptr;
        tail := ptr;
      }
      ghost var after := nodes + [ptr];
      forall i | 0 <= i < |after| ensures PointsOn(after, i) {
        assert i < |nodes| - 1 ==> old(PointsOn(nodes, i)) && after[i] == nodes[i] && nodes[i] != tail;
      }
      TasksLast(nodes, ptr);
    }

    /** The network disk's pop: an empty queue yields NULL. */
    method Pop() returns (r: int, buf: Node?)
      requires Linked()
      modifies this, head
      ensures Linked() && head == old(head) && tail == old(tail) && Repr <= old(Repr)
      ensures old(TailValid()) ==> TailValid()
      ensures old(nodes) == [] ==> r == -1 && buf == null && nodes == []
      ensures old(nodes) != [] ==>
                && r == 1 && buf == old(nodes)[0] && nodes == old(nodes)[1..]
                && buf !in Repr && old(Contents()) == [buf.Task()] + Contents()
      ensures |old(nodes)| == 1 && old(TailValid()) ==> tail == buf
    {
      if size == 0 {
        return -1, null;
      }
      var before := size;
      size := size - 1;
      if before == 0 {
        // The branch that would reset tail: the size compared is the one before the decrement.
        assert false;
      } else {
        buf := Unlink();
      }
      nodes := nodes[1..];
      Repr := Repr - {buf};
      r := 1;
    }

    /** The pointer assignment of a pop. */
    method Unlink() returns (buf: Node)
      requires nodes != [] && Apart(head, nodes) && Chained(head, nodes)
      modifies head`next
      ensures buf == nodes[0] && buf !in nodes[1..] && Apart(head, nodes[1..]) && Chained(head, nodes[1..])
      ensures old(TasksOf(nodes)) == [buf.Task()] + TasksOf(nodes[1..])
    {
      assert PointsOn(nodes, 0);
      buf := head.next;
      head.next := buf.next;
      ghost var rest := nodes[1..];
      forall i | 0 <= i < |rest| ensures PointsOn(rest, i) {
        assert old(PointsOn(nodes, i + 1)) && rest[i] == nodes[i + 1];
      }
      TasksFirst(nodes);
    }

    /** The thread pool's pop: an empty queue leaves the caller's variable as it was. */
    method PopInto(current: Node?) returns (r: int, buf: Node?)
      requires Linked()
      modifies this, head
      ensures Linked() && head == old(head) && tail == old(tail) && Repr <= old(Repr)
      ensures old(TailValid()) ==> TailValid()
      ensures old(nodes) == [] ==> r == -1 && buf == current && nodes == []
      ensures old(nodes) != [] ==>
                && r == 1 && buf == old(nodes)[0] && nodes == old(nodes)[1..]
                && buf !in Repr && old(Contents()) == [buf.Task()] + Contents()
    {
      if size == 0 {
        return -1, current;
      }
      r, buf := Pop();
    }

    /** The marker goes to the front; tail stays good exactly when there was something to point at. */
    method HeadInsertExit() returns (r: int)
      requires Linked() && TailValid()
      modifies this, head
      ensures Linked() && head == old(head) && r == 1
      ensures Contents() == [EXIT_MARKER] + old(Contents())
      ensures nodes[1..] == old(nodes) && fresh(nodes[0]) && Repr == old(Repr) + {nodes[0]}
      ensures TailValid() <==> old(nodes) != []
    {
      var exit := new Node(-1, -1, "");
      PutFirst(exit);
      r := 1;
    }

    method PutFirst(first: Node)
      requires Linked() && TailValid() && first !in Repr && tail != first
      modifies this`size, this`nodes, this`Repr, head`next, first`next
      ensures Linked() && nodes == [first] + old(nodes) && Repr == old(Repr) + {first}
      ensures Contents() == [old(first.Task())] + old(Contents())
      ensures TailValid() <==> old(nodes) != []
    {
      LinkFirst(first);
      size := size + 1;
      nodes := [first] + nodes;
      Repr := Repr + {first};
    }

    method LinkFirst(first: Node)
      requires Apart(head, nodes) && Chained(head, nodes) && first != head && first !in nodes
      modifies head`next, first`next
      ensures Apart(head, [first] + nodes) && Chained(head, [first] + nodes)
      ensures TasksOf([first] + nodes) == [old(first.Task())] + old(TasksOf(nodes))
    {
      first.next := head.next;
      head.next := first;
      ghost var after := [first] + nodes;
      forall i | 0 <= i < |after| ensures PointsOn(after, i) {
        assert i > 0 ==> old(PointsOn(nodes, i - 1)) && after[i] == nodes[i - 1];
      }
      TasksCons(first, nodes);
    }

    /** Frees every node once, the head node last; a stale tail does not matter. */
    method Delete() returns (freed: seq<Node>)
      requires Linked()
      modifies this, head
      ensures freed == old(nodes) + [head] && head == old(head)
      ensures forall i, j :: 0 <= i < j < |freed| ==> freed[i] != freed[j]
      ensures size == 0 && head.next == null
    {
      ghost var was := nodes;
      freed := [];
      while head.next != null
        invariant head == old(head) && |freed| <= |was|
        invariant freed == was[..|freed|]
        invariant head.next == Following(was, |freed| - 1)
        invariant forall i :: 0 <= i < |was| ==> was[i] != head
        invariant forall i :: 0 <= i < |was| ==> PointsOn(was, i)
        decreases |was| - |freed|
      {
        var ptr := head.next;
        assert ptr == was[|freed|] && PointsOn(was, |freed|);
        head.next := ptr.next;
        freed := freed + [ptr];
      }
      size, nodes := 0, [];
      freed := freed + [head];
    }
  }
}
