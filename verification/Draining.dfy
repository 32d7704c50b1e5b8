/**
 Runs in which one upload goes on alone: it receives all that is left of its file, or ends.
 */
module Draining {
  import opened Options
  import opened Bytes
  import opened PathWalk
  import opened NetDisk
  import opened ReadBack

  /** The upload has its file open, and its offset lies within it and within its content. */
  predicate Inside(d: Disk, fd: int) {
    && fd in d.uploads && d.uploads[fd].isOpen && d.uploads[fd].digest in d.store
    && d.uploads[fd].pos <= |d.store[d.uploads[fd].digest]| && d.uploads[fd].pos <= |d.uploads[fd].content|
  }

  function Drained(d: Disk, fd: int): Disk
    requires Inside(d, fd)
  {
    var u := d.uploads[fd];
    d.(store := d.store[u.digest := Written(d.store[u.digest], u, u.content[u.pos..])],
       uploads := d.uploads[fd := u.(pos := |u.content|)])
  }

  /** Steps that only receive. */
  predicate Receives(run: seq<Action>) { forall k :: 0 <= k < |run| ==> run[k].Chunk? }

  lemma WrittenNothing(file: seq<byte>, u: Upload)
    requires u.pos <= |file|
    ensures Written(file, u, []) == file
  {
    assert file[..u.pos] + file[u.pos..] == file;
  }

  /** Two pieces one after the other are one. */
  lemma WrittenTwice(file: seq<byte>, u: Upload, a: seq<byte>, b: seq<byte>)
    requires u.pos <= |file|
    ensures u.pos + |a| <= |Written(file, u, a)|
    ensures Written(Written(file, u, a), u.(pos := u.pos + |a|), b) == Written(file, u, a + b)
  {
    if u.creator {
      OverwrittenTwice(file, u.pos, a, b);
    } else {
      assert file + a + b == file + (a + b);
    }
  }

  lemma OverwrittenTwice(file: seq<byte>, at: nat, a: seq<byte>, b: seq<byte>)
    requires at <= |file|
    ensures at + |a| <= |Overwrite(file, at, a)|
    ensures Overwrite(Overwrite(file, at, a), at + |a|, b) == Overwrite(file, at, a + b)
  {
    var once := Overwrite(file, at, a);
    assert once[..at + |a|] == file[..at] + a;
    if at + |a| + |b| <= |file| {
      assert once[at + |a| + |b|..] == file[at + |a| + |b|..];
    }
  }

  /** An upload can receive all that is left of its file while nothing else happens. */
  lemma {:induction false} Drain(h: Hashes, d: Disk, fd: int) returns (run: seq<Action>)
    requires Inside(d, fd)
    ensures CanRun(h, d, run) && Receives(run) && Run(h, d, run) == Drained(d, fd)
    decreases |d.uploads[fd].content| - d.uploads[fd].pos
  {
    var u := d.uploads[fd];
    if u.pos == |u.content| {
      run := [];
      WrittenNothing(d.store[u.digest], u);
      assert u.content[u.pos..] == [];
      assert Drained(d, fd) == d.(store := d.store, uploads := d.uploads);
    } else {
      var n := if |u.content| - u.pos <= RECV_SIZE then |u.content| - u.pos else RECV_SIZE;
      var next := PutsChunk(d, fd, n);
      DrainedStep(d, fd, n);
      var rest := Drain(h, next, fd);
      ReceiveFirst(h, d, fd, n, rest);
      run := [Chunk(fd, n)] + rest;
    }
  }

  lemma ReceiveFirst(h: Hashes, d: Disk, fd: int, n: nat, rest: seq<Action>)
    requires Receiving(d, fd, n) && CanRun(h, PutsChunk(d, fd, n), rest) && Receives(rest)
    ensures var run := [Chunk(fd, n)] + rest;
            CanRun(h, d, run) && Receives(run) && Run(h, d, run) == Run(h, PutsChunk(d, fd, n), rest)
  {
    RunFirst(h, d, Chunk(fd, n), rest);
  }

  lemma DrainedStep(d: Disk, fd: int, n: nat)
    requires Receiving(d, fd, n)
    ensures Inside(d, fd) && Inside(PutsChunk(d, fd, n), fd) && Drained(PutsChunk(d, fd, n), fd) == Drained(d, fd)
  {
    var u, next := d.uploads[fd], PutsChunk(d, fd, n);
    var a, b := u.content[u.pos..u.pos + n], u.content[u.pos + n..];
    WrittenTwice(d.store[u.digest], u, a, b);
    assert a + b == u.content[u.pos..];
    var all := Written(d.store[u.digest], u, a + b);
    assert next.store[u.digest := all] == d.store[u.digest := all];
    var done := u.(pos := |u.content|);
    assert next.uploads[fd := done] == d.uploads[fd := done];
  }

  /** Receiving opens nothing, accepts nothing and removes nothing. */
  lemma {:induction false} ReceivesOnly(
    h: Hashes, d: Disk, run: seq<Action>, owner: string, name: string, parent: nat, c: seq<byte>)
    requires CanRun(h, d, run) && Receives(run)
    ensures Uncrowded(h, d, run, c) && Unclaimed(h, d, run, owner, name, parent, c)
    ensures NoRemoval(h, d, run, owner, name, parent)
    decreases |run|
  {
    if run != [] {
      ReceivesOnly(h, Apply(h, d, run[0]), run[1..], owner, name, parent, c);
    }
  }

  /** The upload's file is open. */
  function Ready(d: Disk, k: int): Disk
    requires k in d.uploads
  {
    if d.uploads[k].isOpen then d else PutsOpen(d, k)
  }

  function Opening(d: Disk, k: int): seq<Action>
    requires k in d.uploads
  {
    if d.uploads[k].isOpen then [] else [OpenPuts(k)]
  }

  lemma OpeningRuns(h: Hashes, d: Disk, k: int)
    requires k in d.uploads
    ensures CanRun(h, d, Opening(d, k)) && Run(h, d, Opening(d, k)) == Ready(d, k)
  {
    if !d.uploads[k].isOpen {
      RunOne(h, d, OpenPuts(k));
    }
  }

  /** What ends an upload: the opening, if that is still to come, and the INSERT. */
  function Ending(d: Disk, k: int): seq<Action>
    requires k in d.uploads
  {
    Opening(d, k) + [EndPuts(k)]
  }

  lemma EndingRuns(h: Hashes, d: Disk, k: int)
    requires k in d.uploads
    ensures CanRun(h, d, Ending(d, k)) && Run(h, d, Ending(d, k)) == PutsEnd(Ready(d, k), k)
  {
    OpeningRuns(h, d, k);
    RunOne(h, Ready(d, k), EndPuts(k));
    RunConcat(h, d, Opening(d, k), [EndPuts(k)]);
  }

  /** Opening and ending remove nothing. */
  lemma EndingRemovesNothing(h: Hashes, d: Disk, k: int, owner: string, name: string, parent: nat)
    requires k in d.uploads
    ensures CanRun(h, d, Ending(d, k)) && NoRemoval(h, d, Ending(d, k), owner, name, parent)
  {
    EndingRuns(h, d, k);
    var run := Ending(d, k);
    if d.uploads[k].isOpen {
      assert run[0] == EndPuts(k) && run[1..] == [];
    } else {
      assert run[0] == OpenPuts(k) && run[1..][0] == EndPuts(k) && run[1..][1..] == [];
      assert NoRemoval(h, Apply(h, d, run[0]), run[1..], owner, name, parent);
    }
  }
}
