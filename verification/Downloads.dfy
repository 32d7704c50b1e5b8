/**
 Read your writes as far as the reader's disk: the answer of gets, followed by the exchange that
 transfers the file while any other commands run.
 */
module Downloads {
  import opened Options
  import opened Bytes
  import opened PathWalk
  import opened NetDisk
  import opened SteadyPaths
  import opened ReadBack
  import opened ReadYourWrites
  import Exchange

  /**
   The server sends the file of a digest: it takes the size in state d, commands run in between, and
   sendfile reads the file as it is then; the exchange goes on until both ends have finished.
   */
  ghost predicate Transfers(
    h: Hashes, d: Disk, digest: string, between: seq<Action>, setup: Exchange.Setup, run: seq<Exchange.Action>)
  {
    && CanRun(h, d, between) && digest in d.store && digest in Run(h, d, between).store
    && Exchange.SetupOk(setup) && setup.senderFirst
    && setup.file == d.store[digest] && setup.later == Run(h, d, between).store[digest]
    && Exchange.CanRun(setup, Exchange.Initial(setup), run)
    && var s := Exchange.Run(setup, Exchange.Initial(setup), run);
       s.sender.phase == Exchange.Finished && s.receiver.phase == Exchange.Finished
  }

  lemma StepKeepsSize(h: Hashes, d: Disk, a: Action, digest: string)
    requires Allowed(h, d, a) && digest in d.store
    ensures digest in Apply(h, d, a).store && |d.store[digest]| <= |Apply(h, d, a).store[digest]|
  {
    if !a.OpenPuts? && !a.Chunk? {
      StoreOf(h, d, a);
    }
  }

  /** A file of the store never gets shorter, so what sendfile finds is no shorter than the size that was taken. */
  lemma {:induction false} RunKeepsSize(h: Hashes, d: Disk, run: seq<Action>, digest: string)
    requires CanRun(h, d, run) && digest in d.store
    ensures digest in Run(h, d, run).store && |d.store[digest]| <= |Run(h, d, run).store[digest]|
    decreases |run|
  {
    if run != [] {
      StepKeepsSize(h, d, run[0], digest);
      RunKeepsSize(h, Apply(h, d, run[0]), run[1..], digest);
    }
  }

  /** The reader's file is c, and nothing is left on either stream. */
  predicate Leaves(setup: Exchange.Setup, run: seq<Exchange.Action>, c: seq<byte>)
    requires Exchange.SetupOk(setup) && Exchange.CanRun(setup, Exchange.Initial(setup), run)
  {
    var s := Exchange.Run(setup, Exchange.Initial(setup), run);
    s.local == c && s.toReceiver == [] && s.toSender == []
  }

  /**
   When the store holds c whole, a finished transfer leaves exactly c in the reader's file, whether that
   was new or held what broken transfers had left of c, and whatever commands run meanwhile.
   */
  lemma HeldIsDownloaded(
    h: Hashes, d: Disk, c: seq<byte>, between: seq<Action>, setup: Exchange.Setup, run: seq<Exchange.Action>)
    requires Sound(h, d) && Injective(h.md5) && Held(h, d, c)
    requires Transfers(h, d, h.md5(c), between, setup, run) && setup.copy <= c
    ensures Leaves(setup, run, c)
  {
    RunKeepsHeld(h, d, between, c);
    Exchange.FinishedExchange(setup, run);
    assert setup.later[..|setup.file|] == c;
  }

  /** From the accepted upload to the reader's disk. */
  lemma UploadIsDownloaded(
    h: Hashes, d: Disk, fd: int, p: string, c: seq<byte>, during: seq<Action>, later: seq<Action>, reader: int,
    again: string, between: seq<Action>, setup: Exchange.Setup, run: seq<Exchange.Action>)
    requires Sound(h, d) && Tidy(h, d, c) && Injective(h.md5) && fd in d.uploads
    requires CanRun(h, d, during) && EndPuts(fd) !in during && Uncrowded(h, d, during, c)
    requires var u, d2 := d.uploads[fd], Run(h, d, during);
             && u.content == c && SteadyPath(d, p) && FileTarget(d.rows, p) == Some((u.parent, u.fileName))
             && Reserved(h, d, u.owner, u.fileName, u.parent, c)
             && Unclaimed(h, d, during, u.owner, u.fileName, u.parent, c)
             && u.owner in d2.users && fd in d2.uploads && d2.uploads[fd].isOpen && Complete(d2.uploads[fd])
             && AsksLater(h, PutsEnd(d2, fd), later, reader, again, p, u.owner, u.fileName, u.parent)
             && Transfers(h, Run(h, PutsEnd(d2, fd), later), h.md5(c), between, setup, run) && setup.copy <= c
    ensures var end := Run(h, PutsEnd(Run(h, d, during), fd), later);
            Gets(end, reader, again) == Sending(d.uploads[fd].fileName, h.md5(c)) && Leaves(setup, run, c)
  {
    var d2 := Run(h, d, during);
    UploadIsReadBack(h, d, fd, p, c, during, later, reader, again);
    RunKeepsSound(h, d, during);
    StepKeepsSound(h, d2, EndPuts(fd));
    RunKeepsSound(h, PutsEnd(d2, fd), later);
    HeldIsDownloaded(h, Run(h, PutsEnd(d2, fd), later), c, between, setup, run);
  }
}
