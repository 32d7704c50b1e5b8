/** The table of connected clients: TCP_CAPACITY slots, -1 marking a free one. */
module ClientTable {
  const TCP_CAPACITY: nat := 1000

  datatype Slot = Slot(fd: int, workFlag: bool, name: string, path: string)

  const FREE := Slot(-1, false, "", "")

  predicate Distinct(slots: seq<Slot>) {
    forall i, j :: 0 <= i < j < |slots| && slots[i].fd != -1 ==> slots[i].fd != slots[j].fd
  }

  predicate Holds(slots: seq<Slot>, k: nat, fd: int) {
    k < |slots| && slots[k].fd == fd
  }

  ghost predicate Connected(slots: seq<Slot>, fd: int) {
    fd != -1 && exists k :: Holds(slots, k, fd)
  }

  ghost function SlotOf(slots: seq<Slot>, fd: int): (k: nat)
    requires Connected(slots, fd)
    ensures Holds(slots, k, fd)
  {
    var k :| Holds(slots, k, fd); k
  }

  lemma SlotIs(slots: seq<Slot>, k: nat, fd: int)
    requires Distinct(slots) && Holds(slots, k, fd) && fd != -1
    ensures Connected(slots, fd) && SlotOf(slots, fd) == k
  {
  }

  function Fds(slots: seq<Slot>): set<int> {
    set k | 0 <= k < |slots| && slots[k].fd != -1 :: slots[k].fd
  }

  lemma ConnectedIffInFds(slots: seq<Slot>, fd: int)
    ensures Connected(slots, fd) <==> fd in Fds(slots)
  {
    if Connected(slots, fd) {
      var k := SlotOf(slots, fd);
      assert slots[k].fd in Fds(slots);
    }
    if fd in Fds(slots) {
      var k :| 0 <= k < |slots| && slots[k].fd != -1 && slots[k].fd == fd;
      assert Holds(slots, k, fd);
    }
  }

  /** The first slot with descriptor fd, or the length of the table. */
  function FirstWith(slots: seq<Slot>, fd: int): (k: nat)
    ensures k <= |slots|
    ensures forall i :: 0 <= i < k ==> slots[i].fd != fd
    ensures k < |slots| ==> slots[k].fd == fd
  {
    if slots == [] || slots[0].fd == fd then 0 else 1 + FirstWith(slots[1..], fd)
  }

  lemma FirstWithIs(slots: seq<Slot>, fd: int, k: nat)
    requires k <= |slots| && (k < |slots| ==> slots[k].fd == fd)
    requires forall i :: 0 <= i < k ==> slots[i].fd != fd
    ensures FirstWith(slots, fd) == k
  {
  }

  /** The search that main and every command do for a descriptor, or for a free slot. */
  method FindSlot(slots: array<Slot>, fd: int) returns (j: nat)
    ensures j == FirstWith(slots[..], fd)
    ensures j < slots.Length ==> slots[j].fd == fd
    ensures j == slots.Length <==> !exists k :: Holds(slots[..], k, fd)
  {
    j := 0;
    while j < slots.Length
      invariant j <= slots.Length
      invariant forall k :: 0 <= k < j ==> slots[k].fd != fd
    {
      if slots[j].fd == fd {
        FirstWithIs(slots[..], fd, j);
        assert Holds(slots[..], j, fd);
        return;
      }
      j := j + 1;
    }
    FirstWithIs(slots[..], fd, j);
  }

  // ---- Pigeonhole ----------------------------------------------------------------------------

  lemma {:induction false} FdsBound(slots: seq<Slot>)
    ensures |Fds(slots)| <= |slots|
  {
    if slots == [] {
      assert Fds(slots) == {};
    } else {
      var last := slots[|slots| - 1];
      var front := slots[..|slots| - 1];
      FdsBound(front);
      forall f ensures f in Fds(slots) <==> f in Fds(front) || (f == last.fd && f != -1) {
        if f in Fds(front) {
          var k :| 0 <= k < |front| && front[k].fd != -1 && front[k].fd == f;
          assert slots[k].fd == f;
        }
      }
      assert Fds(slots) == if last.fd == -1 then Fds(front) else Fds(front) + {last.fd};
    }
  }

  /** With every slot taken by a different client, there are as many clients as slots. */
  lemma {:induction false} FullTable(slots: seq<Slot>)
    requires Distinct(slots) && forall k :: 0 <= k < |slots| ==> slots[k].fd != -1
    ensures |Fds(slots)| == |slots|
  {
    if slots == [] {
      assert Fds(slots) == {};
    } else {
      var last := slots[|slots| - 1];
      var front := slots[..|slots| - 1];
      FullTable(front);
      assert last.fd !in Fds(front);
      forall f ensures f in Fds(slots) <==> f in Fds(front) + {last.fd} {
        if f in Fds(front) {
          var k :| 0 <= k < |front| && front[k].fd != -1 && front[k].fd == f;
          assert slots[k].fd == f;
        }
      }
      assert Fds(slots) == Fds(front) + {last.fd};
    }
  }
}
