/**
 A puts as the server's side of the exchange that transfers the file: what recv_file takes from the stream
 is what the receive steps write, and an exchange that finishes leaves the upload complete.
 */
module Uploads {
  import opened Options
  import opened Bytes
  import opened PathWalk
  import opened NetDisk
  import opened ReadBack
  import opened ReadYourWrites
  import E = Exchange

  function Sum(sizes: seq<nat>): nat {
    if sizes == [] then 0 else sizes[0] + Sum(sizes[1..])
  }

  /** The sizes of what recv returns in the data part of an exchange. */
  function Received(c: E.Setup, s: E.State, run: seq<E.Action>): seq<nat>
    requires E.SetupOk(c) && E.CanRun(c, s, run)
    decreases |run|
  {
    if run == [] then []
    else
      (if run[0].ReceiverReceives? && s.receiver.phase == E.Streaming then [run[0].n] else [])
      + Received(c, E.Apply(c, s, run[0]), run[1..])
  }

  /** The sizes of the receive steps of one connection. */
  function ChunksOf(run: seq<Action>, fd: int): seq<nat>
    decreases |run|
  {
    if run == [] then [] else (if run[0].Chunk? && run[0].fd == fd then [run[0].n] else []) + ChunksOf(run[1..], fd)
  }

  lemma SumFirst(n: nat, rest: seq<nat>)
    ensures Sum([n] + rest) == n + Sum(rest)
  {
    assert ([n] + rest)[1..] == rest;
  }

  lemma {:induction false} LocalMoves(c: E.Setup, s: E.State, run: seq<E.Action>)
    requires E.Inv(c, s) && E.CanRun(c, s, run)
    ensures |E.Run(c, s, run).local| == |s.local| + Sum(Received(c, s, run))
    decreases |run|
  {
    if run != [] {
      var rest := Received(c, E.Apply(c, s, run[0]), run[1..]);
      E.StepKeepsInv(c, s, run[0]);
      LocalMoves(c, E.Apply(c, s, run[0]), run[1..]);
      if run[0].ReceiverReceives? && s.receiver.phase == E.Streaming {
        SumFirst(run[0].n, rest);
      } else {
        assert [] + rest == rest;
      }
    }
  }

  lemma StepMovesPos(h: Hashes, d: Disk, a: Action, fd: int)
    requires Allowed(h, d, a) && fd in d.uploads && d.uploads[fd].isOpen && a != EndPuts(fd)
    ensures var after := Apply(h, d, a).uploads;
            && fd in after && after[fd].isOpen && after[fd].content == d.uploads[fd].content
            && after[fd].pos == d.uploads[fd].pos + if a.Chunk? && a.fd == fd then a.n else 0
  {
    StepKeepsUpload(h, d, a, fd);
    if a.fd != fd {
      OtherStep(h, d, a, fd);
    } else if !a.Chunk? {
      assert !a.OpenPuts? && !a.DoPuts?;
      OtherUploads(h, d, a);
    }
  }

  lemma {:induction false} PosMoves(h: Hashes, d: Disk, run: seq<Action>, fd: int)
    requires CanRun(h, d, run) && fd in d.uploads && d.uploads[fd].isOpen && EndPuts(fd) !in run
    ensures var after := Run(h, d, run).uploads;
            && fd in after && after[fd].isOpen && after[fd].content == d.uploads[fd].content
            && after[fd].pos == d.uploads[fd].pos + Sum(ChunksOf(run, fd))
    decreases |run|
  {
    if run != [] {
      assert run[0] != EndPuts(fd);
      StepMovesPos(h, d, run[0], fd);
      PosMoves(h, Apply(h, d, run[0]), run[1..], fd);
      if run[0].Chunk? && run[0].fd == fd {
        SumFirst(run[0].n, ChunksOf(run[1..], fd));
      } else {
        assert [] + ChunksOf(run[1..], fd) == ChunksOf(run[1..], fd);
      }
    }
  }

  /** The exchange of an upload that has just been opened: the server speaks first, the client sends its file. */
  predicate Exchanges(d: Disk, fd: int, setup: E.Setup) {
    && fd in d.uploads && d.uploads[fd].isOpen && E.SetupOk(setup) && !setup.senderFirst
    && setup.file == setup.later == d.uploads[fd].content && |setup.copy| == d.uploads[fd].pos
  }

  /** What the receiver has taken of the data, at every moment, is the file from the offset on. */
  lemma TakenFromContent(c: E.Setup, s: E.State)
    requires E.Inv(c, s) && c.later == c.file
    ensures |c.copy| <= |s.local| && (|c.copy| < |s.local| ==> |s.local| <= |c.file|)
    ensures |s.local| <= |c.file| ==> s.local[|c.copy|..] == c.file[|c.copy|..|s.local|]
  {
    E.LocalIsPrefix(c, s);
    var data := E.Data(c);
    if E.DataFollows(c) {
      assert data == c.file[|c.copy|..];
      assert s.local == (c.copy + data)[..|s.local|];
    }
  }

  /**
   However far the exchange has got, and whatever steps of other connections fall in between: when the
   receive steps are of the sizes that recv returned, the upload's offset is where the receiver is, and
   what they have written is what the receiver has taken; when it has finished, the upload is complete.
   */
  lemma UploadFollowsExchange(
    h: Hashes, d: Disk, fd: int, during: seq<Action>, setup: E.Setup, run: seq<E.Action>)
    requires CanRun(h, d, during) && EndPuts(fd) !in during && Exchanges(d, fd, setup)
    requires E.CanRun(setup, E.Initial(setup), run) && ChunksOf(during, fd) == Received(setup, E.Initial(setup), run)
    ensures var u, s := d.uploads[fd], E.Run(setup, E.Initial(setup), run);
            && fd in Run(h, d, during).uploads && Run(h, d, during).uploads[fd].pos == |s.local|
            && u.pos <= |s.local| && (|s.local| <= |u.content| ==> s.local[u.pos..] == u.content[u.pos..|s.local|])
            && (s.receiver.phase == E.Finished ==> Complete(Run(h, d, during).uploads[fd]))
  {
    var start := E.Initial(setup);
    E.InitialInv(setup);
    E.RunKeepsInv(setup, start, run);
    LocalMoves(setup, start, run);
    PosMoves(h, d, during, fd);
    TakenFromContent(setup, E.Run(setup, start, run));
  }

  lemma StreamedFits(c: E.Setup, s: E.State, n: nat)
    requires E.Inv(c, s) && c.later == c.file && E.Allowed(s, E.ReceiverReceives(n)) && s.receiver.phase == E.Streaming
    ensures 1 <= n <= RECV_SIZE && |s.local| + n <= |c.file|
    ensures |E.Apply(c, s, E.ReceiverReceives(n)).local| == |s.local| + n
  {
    E.StepKeepsInv(c, s, E.ReceiverReceives(n));
    TakenFromContent(c, E.Apply(c, s, E.ReceiverReceives(n)));
  }

  lemma OtherReceives(c: E.Setup, s: E.State, a: E.Action)
    requires |c.file| <= |c.later| && E.Allowed(s, a) && !(a.ReceiverReceives? && s.receiver.phase == E.Streaming)
    ensures E.Apply(c, s, a).local == s.local
  {
  }

  lemma PrependChunk(h: Hashes, d: Disk, fd: int, n: nat, rest: seq<Action>)
    requires Receiving(d, fd, n) && CanRun(h, PutsChunk(d, fd, n), rest)
    ensures CanRun(h, d, [Chunk(fd, n)] + rest) && ChunksOf([Chunk(fd, n)] + rest, fd) == [n] + ChunksOf(rest, fd)
  {
    RunFirst(h, d, Chunk(fd, n), rest);
    assert ([Chunk(fd, n)] + rest)[1..] == rest;
  }

  /** And the receive steps of those sizes can be taken, undisturbed. */
  lemma {:induction false} ExchangeIsRun(
    h: Hashes, d: Disk, fd: int, setup: E.Setup, s: E.State, run: seq<E.Action>) returns (steps: seq<Action>)
    requires E.Inv(setup, s) && E.CanRun(setup, s, run) && setup.later == setup.file
    requires fd in d.uploads && d.uploads[fd].isOpen && d.uploads[fd].content == setup.file
    requires d.uploads[fd].pos == |s.local|
    requires d.uploads[fd].digest in d.store && |s.local| <= |d.store[d.uploads[fd].digest]|
    ensures CanRun(h, d, steps) && ChunksOf(steps, fd) == Received(setup, s, run)
    ensures forall k :: 0 <= k < |steps| ==> steps[k].Chunk? && steps[k].fd == fd
    decreases |run|
  {
    if run == [] {
      steps := [];
    } else {
      var next := E.Apply(setup, s, run[0]);
      E.StepKeepsInv(setup, s, run[0]);
      if run[0].ReceiverReceives? && s.receiver.phase == E.Streaming {
        StreamedFits(setup, s, run[0].n);
        var rest := ExchangeIsRun(h, PutsChunk(d, fd, run[0].n), fd, setup, next, run[1..]);
        PrependChunk(h, d, fd, run[0].n, rest);
        steps := [Chunk(fd, run[0].n)] + rest;
      } else {
        OtherReceives(setup, s, run[0]);
        steps := ExchangeIsRun(h, d, fd, setup, next, run[1..]);
        assert [] + Received(setup, next, run[1..]) == Received(setup, next, run[1..]);
      }
    }
  }

  /**
   From the opened file to its being stored: an exchange that finishes, with any steps of others in between
   that do not crowd the content or claim the place, then the end of the upload, then anything but a removal.
   */
  lemma FinishedUploadIsStored(
    h: Hashes, d: Disk, fd: int, during: seq<Action>, later: seq<Action>, setup: E.Setup, run: seq<E.Action>)
    requires Sound(h, d) && Injective(h.md5) && Settled(h, d, fd) && d.uploads[fd].owner in d.users
    requires Exchanges(d, fd, setup) && E.CanRun(setup, E.Initial(setup), run)
    requires E.Run(setup, E.Initial(setup), run).receiver.phase == E.Finished
    requires CanRun(h, d, during) && EndPuts(fd) !in during
    requires ChunksOf(during, fd) == Received(setup, E.Initial(setup), run)
    requires var u := d.uploads[fd];
             && Uncrowded(h, d, during, u.content) && Unclaimed(h, d, during, u.owner, u.fileName, u.parent, u.content)
             && (fd in Run(h, d, during).uploads ==>
                   && CanRun(h, PutsEnd(Run(h, d, during), fd), later)
                   && NoRemoval(h, PutsEnd(Run(h, d, during), fd), later, u.owner, u.fileName, u.parent))
    ensures var u := d.uploads[fd];
            && fd in Run(h, d, during).uploads && CanRun(h, PutsEnd(Run(h, d, during), fd), later)
            && Stored(h, Run(h, PutsEnd(Run(h, d, during), fd), later), u.owner, u.fileName, u.parent, u.content)
  {
    UploadFollowsExchange(h, d, fd, during, setup, run);
    SettledIsStored(h, d, fd, during, later);
  }
}
