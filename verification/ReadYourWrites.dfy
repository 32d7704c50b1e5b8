/**
 Read your writes: a file whose puts was accepted and fully received is read back as it was sent, and
 the exact condition under which that is promised whatever happens next.
 */
module ReadYourWrites {
  import opened Options
  import opened Bytes
  import opened PathWalk
  import opened NetDisk
  import opened SteadyPaths
  import opened ReadBack
  import opened Draining

  /** gets of a path that leads to a stored file sends its content. */
  lemma StoredIsSent(h: Hashes, d: Disk, fd: int, option: string, name: string, parent: nat, c: seq<byte>)
    requires fd in d.sessions && FileTarget(d.rows, TransferPath(d.sessions[fd], option)) == Some((parent, name))
    requires Stored(h, d, d.sessions[fd].name, name, parent, c)
    ensures Gets(d, fd, option) == Sending(name, h.md5(c)) && h.md5(c) in d.store && d.store[h.md5(c)] == c
  {
    var id :| Lasting(d, id, d.sessions[fd].name, name, parent);
  }

  /** Commands without a removal of the file, after which a session of the user asks for the path p. */
  ghost predicate AsksLater(
    h: Hashes, d: Disk, later: seq<Action>, reader: int, again: string, p: string,
    owner: string, name: string, parent: nat)
  {
    && CanRun(h, d, later) && NoRemoval(h, d, later, owner, name, parent)
    && reader in Run(h, d, later).sessions && Run(h, d, later).sessions[reader].name == owner
    && TransferPath(Run(h, d, later).sessions[reader], again) == p
  }

  /**
   Read your writes. Any commands of any users run (`before`); a session asks to upload content c to the
   path p, which its option names, and the server accepts; commands go on (`during`) until all of c has
   arrived and the upload ends; any commands follow (`later`), but no removal of p by its owner. Then gets
   of p, in any session of that user, sends exactly c.
   Up to the end of the upload, nobody may open the store's unfinished file of c while somebody else writes
   to it, and no upload of something else may be accepted for p; uploads of other contents to other places are
   free. The path must be steady when the upload is accepted. Nothing is asked of what follows.
   */
  lemma ReadYourWrites(
    h: Hashes, d: Disk, before: seq<Action>, fd: int, option: string, c: seq<byte>,
    during: seq<Action>, later: seq<Action>, reader: int, again: string)
    requires Sound(h, d) && Tidy(h, d, c) && Injective(h.md5)
    requires CanRun(h, d, before) && Uncrowded(h, d, before, c)
    requires var d0, a := Run(h, d, before), DoPuts(fd, option, h.md5(c), c);
             && Allowed(h, d0, a) && d0.sessions[fd].name in d0.users && fd in Apply(h, d0, a).uploads
             && var p := TransferPath(d0.sessions[fd], option);
             && SteadyPath(d0, p)
             && var d1, u := Apply(h, d0, a), Apply(h, d0, a).uploads[fd];
                && Reserved(h, d1, u.owner, u.fileName, u.parent, c)
                && CanRun(h, d1, during) && EndPuts(fd) !in during
                && Uncrowded(h, d1, during, c) && Unclaimed(h, d1, during, u.owner, u.fileName, u.parent, c)
                && var d2 := Run(h, d1, during);
                   && fd in d2.uploads && d2.uploads[fd].isOpen && Complete(d2.uploads[fd])
                   && AsksLater(h, PutsEnd(d2, fd), later, reader, again, p, u.owner, u.fileName, u.parent)
    ensures var d1 := Apply(h, Run(h, d, before), DoPuts(fd, option, h.md5(c), c));
            var end := Run(h, PutsEnd(Run(h, d1, during), fd), later);
            && Gets(end, reader, again) == Sending(d1.uploads[fd].fileName, h.md5(c))
            && h.md5(c) in end.store && end.store[h.md5(c)] == c && Held(h, end, c)
  {
    RunKeepsTidy(h, d, before, c);
    var d0, a := Run(h, d, before), DoPuts(fd, option, h.md5(c), c);
    AcceptedUpload(h, d0, fd, option, c);
    var d1 := Apply(h, d0, a);
    UsersStay(h, d1, during, d1.uploads[fd].owner);
    UploadIsReadBack(h, d1, fd, TransferPath(d0.sessions[fd], option), c, during, later, reader, again);
  }

  lemma AcceptedUpload(h: Hashes, d: Disk, fd: int, option: string, c: seq<byte>)
    requires Sound(h, d) && Tidy(h, d, c) && Injective(h.md5)
    requires var a := DoPuts(fd, option, h.md5(c), c); Allowed(h, d, a) && fd in Apply(h, d, a).uploads
    requires SteadyPath(d, TransferPath(d.sessions[fd], option))
    ensures var after, p := Apply(h, d, DoPuts(fd, option, h.md5(c), c)), TransferPath(d.sessions[fd], option);
            var u := after.uploads[fd];
            && Sound(h, after) && Tidy(h, after, c) && SteadyPath(after, p) && after.users == d.users
            && u.owner == d.sessions[fd].name && u.content == c
            && FileTarget(after.rows, p) == Some((u.parent, u.fileName))
  {
    var a := DoPuts(fd, option, h.md5(c), c);
    StepKeepsSound(h, d, a);
    StepKeepsTidy(h, d, a, c);
    StepKeepsSteady(h, d, a, ROOT, DirParts(TransferPath(d.sessions[fd], option)));
    AcceptedTarget(d, fd, option, h.md5(c), c);
  }

  lemma AcceptedTarget(d: Disk, fd: int, option: string, digest: string, c: seq<byte>)
    requires Idle(d, fd) && fd in PutsBegin(d, fd, option, digest, c).0.uploads
    ensures var after := PutsBegin(d, fd, option, digest, c).0;
            var u := after.uploads[fd];
            && after == d.(uploads := after.uploads) && u.owner == d.sessions[fd].name && u.content == c
            && FileTarget(d.rows, TransferPath(d.sessions[fd], option)) == Some((u.parent, u.fileName))
  {
  }

  /** The theorem from the accepted upload on. */
  lemma UploadIsReadBack(
    h: Hashes, d: Disk, fd: int, p: string, c: seq<byte>, during: seq<Action>, later: seq<Action>, reader: int,
    again: string)
    requires Sound(h, d) && Tidy(h, d, c) && Injective(h.md5) && fd in d.uploads
    requires CanRun(h, d, during) && EndPuts(fd) !in during && Uncrowded(h, d, during, c)
    requires var u, d2 := d.uploads[fd], Run(h, d, during);
             && u.content == c && SteadyPath(d, p) && FileTarget(d.rows, p) == Some((u.parent, u.fileName))
             && Reserved(h, d, u.owner, u.fileName, u.parent, c)
             && Unclaimed(h, d, during, u.owner, u.fileName, u.parent, c)
             && u.owner in d2.users && fd in d2.uploads && d2.uploads[fd].isOpen && Complete(d2.uploads[fd])
             && AsksLater(h, PutsEnd(d2, fd), later, reader, again, p, u.owner, u.fileName, u.parent)
    ensures var end := Run(h, PutsEnd(Run(h, d, during), fd), later);
            && Gets(end, reader, again) == Sending(d.uploads[fd].fileName, h.md5(c))
            && h.md5(c) in end.store && end.store[h.md5(c)] == c && Held(h, end, c)
  {
    var u, d2 := d.uploads[fd], Run(h, d, during);
    UploadStays(h, d, during, fd);
    RunKeepsTidy(h, d, during, c);
    RunKeepsReserved(h, d, during, u.owner, u.fileName, u.parent, c);
    TidyFills(h, d2, fd, c);
    CompleteUploadIsStored(h, d2, fd);
    RunKeepsTarget(h, d, during, p);
    EndAndRead(h, d2, fd, p, c, later, reader, again);
  }

  lemma EndAndRead(
    h: Hashes, d: Disk, fd: int, p: string, c: seq<byte>, later: seq<Action>, reader: int, again: string)
    requires Sound(h, d) && Injective(h.md5) && fd in d.uploads && d.uploads[fd].isOpen && SteadyPath(d, p)
    requires var u, d3 := d.uploads[fd], PutsEnd(d, fd);
             && FileTarget(d.rows, p) == Some((u.parent, u.fileName))
             && Stored(h, d3, u.owner, u.fileName, u.parent, c)
             && AsksLater(h, d3, later, reader, again, p, u.owner, u.fileName, u.parent)
    ensures var end := Run(h, PutsEnd(d, fd), later);
            && Gets(end, reader, again) == Sending(d.uploads[fd].fileName, h.md5(c))
            && h.md5(c) in end.store && end.store[h.md5(c)] == c && Held(h, end, c)
  {
    var u, d3 := d.uploads[fd], PutsEnd(d, fd);
    StepKeepsSound(h, d, EndPuts(fd));
    StepKeepsSteady(h, d, EndPuts(fd), ROOT, DirParts(p));
    RunKeepsStored(h, d3, later, u.owner, u.fileName, u.parent, c);
    RunKeepsTarget(h, d3, later, p);
    StoredIsSent(h, Run(h, d3, later), reader, again, u.fileName, u.parent, c);
  }

  /** Nothing that is stored of a user ever changes. */
  lemma {:induction false} UsersStay(h: Hashes, d: Disk, run: seq<Action>, name: string)
    requires CanRun(h, d, run) && name in d.users
    ensures name in Run(h, d, run).users && Run(h, d, run).users[name] == d.users[name]
    decreases |run|
  {
    if run != [] {
      UserStays(h, d, run[0], name);
      UsersStay(h, Apply(h, d, run[0]), run[1..], name);
    }
  }

  lemma UserStays(h: Hashes, d: Disk, a: Action, name: string)
    requires Allowed(h, d, a) && name in d.users
    ensures name in Apply(h, d, a).users && Apply(h, d, a).users[name] == d.users[name]
  {
    if !a.EndRegist? && !a.EndRemove? && !a.EndPuts? {
      OtherTables(h, d, a);
    }
  }

  // ---- The exact condition ---------------------------------------------------------------------

  /** Commands until the upload is complete, its end, and commands without a removal of the file. */
  ghost predicate Continues(h: Hashes, d: Disk, fd: int, during: seq<Action>, later: seq<Action>)
    requires fd in d.uploads
  {
    var u := d.uploads[fd];
    && CanRun(h, d, during) && EndPuts(fd) !in during
    && Uncrowded(h, d, during, u.content)
    && Unclaimed(h, d, during, u.owner, u.fileName, u.parent, u.content)
    && fd in Run(h, d, during).uploads && Complete(Run(h, d, during).uploads[fd])
    && CanRun(h, PutsEnd(Run(h, d, during), fd), later)
    && NoRemoval(h, PutsEnd(Run(h, d, during), fd), later, u.owner, u.fileName, u.parent)
  }

  /** There is a row at the place, and with whichever the database answers, the store has c under its digest. */
  ghost predicate ReadsBack(h: Hashes, d: Disk, owner: string, name: string, parent: nat, c: seq<byte>) {
    && (exists id :: IsFileOf(d.rows, id, owner, name, parent))
    && (forall id :: IsFileOf(d.rows, id, owner, name, parent) ==> d.rows[id].md5 == h.md5(c))
    && h.md5(c) in d.store && d.store[h.md5(c)] == c
  }

  lemma StoredReadsBack(h: Hashes, d: Disk, owner: string, name: string, parent: nat, c: seq<byte>)
    requires Stored(h, d, owner, name, parent, c)
    ensures ReadsBack(h, d, owner, name, parent, c)
  {
    var id :| Lasting(d, id, owner, name, parent);
  }

  /** However things go on, the place is read back as what was sent. */
  ghost predicate AlwaysReadBack(h: Hashes, d: Disk, fd: int)
    requires fd in d.uploads
  {
    var u := d.uploads[fd];
    forall during, later :: Continues(h, d, fd, during, later) ==>
      ReadsBack(h, Run(h, PutsEnd(Run(h, d, during), fd), later), u.owner, u.fileName, u.parent, u.content)
  }

  lemma SettledIsStored(h: Hashes, d: Disk, fd: int, during: seq<Action>, later: seq<Action>)
    requires Sound(h, d) && Injective(h.md5) && fd in d.uploads && Settled(h, d, fd)
    requires d.uploads[fd].owner in d.users && Continues(h, d, fd, during, later)
    ensures var u := d.uploads[fd];
            Stored(h, Run(h, PutsEnd(Run(h, d, during), fd), later), u.owner, u.fileName, u.parent, u.content)
  {
    var u, d2 := d.uploads[fd], Run(h, d, during);
    RunKeepsFilling(h, d, during, fd, u.content);
    RunKeepsReserved(h, d, during, u.owner, u.fileName, u.parent, u.content);
    UploadStays(h, d, during, fd);
    UsersStay(h, d, during, u.owner);
    CompleteUploadIsStored(h, d2, fd);
    StepKeepsSound(h, d2, EndPuts(fd));
    RunKeepsStored(h, PutsEnd(d2, fd), later, u.owner, u.fileName, u.parent, u.content);
  }

  // ---- Breaking it -----------------------------------------------------------------------

  ghost predicate Spoiled(h: Hashes, d: Disk, c: seq<byte>) {
    h.md5(c) in d.store && d.store[h.md5(c)] != c
  }

  /** What an upload leaves when it goes on alone is right exactly when the file was in place for it. */
  lemma WrittenOutExactly(file: seq<byte>, u: Upload, c: seq<byte>)
    requires u.pos <= |file| && u.pos <= |c|
    ensures Written(file, u, c[u.pos..]) == c <==> InPlace(file, u, c)
  {
    var all := Written(file, u, c[u.pos..]);
    assert c == c[..u.pos] + c[u.pos..];
    if all == c {
      if u.creator {
        assert all[..u.pos] == file[..u.pos];
      } else {
        assert all[..|file|] == file;
      }
    }
  }

  /** Without the store in order, the upload can go through and leave something else there. */
  lemma UnfilledBreaks(h: Hashes, d: Disk, fd: int) returns (during: seq<Action>, later: seq<Action>)
    requires Sound(h, d) && Injective(h.md5) && fd in d.uploads && d.uploads[fd].isOpen
    requires !Filling(h, d, fd, d.uploads[fd].content)
    ensures Continues(h, d, fd, during, later)
    ensures Spoiled(h, Run(h, PutsEnd(Run(h, d, during), fd), later), d.uploads[fd].content)
  {
    var u, c := d.uploads[fd], d.uploads[fd].content;
    assert UploadOpenable(d, u);
    if u.pos > |c| {
      during, later := [], [];
    } else if !InPlace(d.store[u.digest], u, c) {
      during := Drain(h, d, fd);
      later := [];
      ReceivesOnly(h, d, during, u.owner, u.fileName, u.parent, c);
      WrittenOutExactly(d.store[u.digest], u, c);
    } else {
      during, later := RivalBreaks(h, d, fd);
    }
  }

  lemma RivalBreaks(h: Hashes, d: Disk, fd: int) returns (during: seq<Action>, later: seq<Action>)
    requires Sound(h, d) && Injective(h.md5) && Inside(d, fd)
    requires var u := d.uploads[fd];
             InPlace(d.store[u.digest], u, u.content) && !NoRival(h, d, fd, u.content, Complete(u))
    ensures Continues(h, d, fd, during, later)
    ensures Spoiled(h, Run(h, PutsEnd(Run(h, d, during), fd), later), d.uploads[fd].content)
  {
    var u, c := d.uploads[fd], d.uploads[fd].content;
    var k :| k in d.uploads && k != fd && Feeds(h, d.uploads[k], c) && !Complete(d.uploads[k])
             && !(Complete(u) && d.uploads[k].creator);
    assert UploadOpenable(d, d.uploads[k]);
    if d.uploads[k].creator {
      during := FirstDrain(h, d, fd, k);
      later := [];
    } else {
      during := Drain(h, d, fd);
      ReceivesOnly(h, d, during, u.owner, u.fileName, u.parent, c);
      later := SecondDrain(h, d, fd, k);
    }
  }

  /** After the one upload another one appends what it still has of the same content. */
  lemma SecondDrain(h: Hashes, d: Disk, fd: int, k: int) returns (later: seq<Action>)
    requires Sound(h, d) && Injective(h.md5) && Inside(d, fd) && Inside(d, k) && k != fd
    requires var c := d.uploads[fd].content;
             && Feeds(h, d.uploads[fd], c) && InPlace(d.store[h.md5(c)], d.uploads[fd], c)
             && Feeds(h, d.uploads[k], c) && !Complete(d.uploads[k]) && !d.uploads[k].creator
    ensures var u, d3 := d.uploads[fd], PutsEnd(Drained(d, fd), fd);
            && CanRun(h, d3, later) && NoRemoval(h, d3, later, u.owner, u.fileName, u.parent)
            && Spoiled(h, Run(h, d3, later), u.content)
  {
    var u, c, d3 := d.uploads[fd], d.uploads[fd].content, PutsEnd(Drained(d, fd), fd);
    assert d.uploads[k].content == c && d3.uploads[k] == d.uploads[k];
    WrittenOutExactly(d.store[u.digest], u, c);
    later := Drain(h, d3, k);
    ReceivesOnly(h, d3, later, u.owner, u.fileName, u.parent, c);
    assert |Drained(d3, k).store[h.md5(c)]| > |c|;
  }

  /** Before an appending upload that is unfinished, the one that created the file writes past its offset. */
  lemma FirstDrain(h: Hashes, d: Disk, fd: int, k: int) returns (during: seq<Action>)
    requires Sound(h, d) && Injective(h.md5) && Inside(d, fd) && Inside(d, k) && k != fd
    requires var c := d.uploads[fd].content;
             && Feeds(h, d.uploads[fd], c) && InPlace(d.store[h.md5(c)], d.uploads[fd], c) && !Complete(d.uploads[fd])
             && Feeds(h, d.uploads[k], c) && !Complete(d.uploads[k]) && d.uploads[k].creator
    ensures Continues(h, d, fd, during, [])
    ensures Spoiled(h, PutsEnd(Run(h, d, during), fd), d.uploads[fd].content)
  {
    var u, c := d.uploads[fd], d.uploads[fd].content;
    assert !u.creator && d.uploads[k].content == c;
    var one := Drain(h, d, k);
    var mid := Drained(d, k);
    assert mid.uploads[fd] == u;
    WholeAfterCreator(d.store[h.md5(c)], d.uploads[k], u, c);
    var two := Drain(h, mid, fd);
    RunConcat(h, d, one, two);
    during := one + two;
    ReceivesOnly(h, d, during, u.owner, u.fileName, u.parent, c);
    assert |Drained(mid, fd).store[h.md5(c)]| > |c|;
  }

  lemma WholeAfterCreator(file: seq<byte>, creator: Upload, u: Upload, c: seq<byte>)
    requires creator.creator && !u.creator && InPlace(file, u, c) && creator.pos <= |file|
    ensures Written(file, creator, c[creator.pos..]) == c
  {
    assert file[..creator.pos] == c[..creator.pos];
    WrittenOutExactly(file, creator, c);
  }

  /** Without the place in order, the upload can go through and leave a row of something else there. */
  lemma UnreservedBreaks(h: Hashes, d: Disk, fd: int) returns (during: seq<Action>, later: seq<Action>)
    requires Sound(h, d) && Injective(h.md5) && fd in d.uploads && d.uploads[fd].isOpen
    requires d.uploads[fd].owner in d.users && d.uploads[fd].pos <= |d.uploads[fd].content|
    requires var u := d.uploads[fd]; !Reserved(h, d, u.owner, u.fileName, u.parent, u.content)
    ensures Continues(h, d, fd, during, later)
    ensures var u := d.uploads[fd];
            !ReadsBack(h, Run(h, PutsEnd(Run(h, d, during), fd), later), u.owner, u.fileName, u.parent, u.content)
  {
    var u, c := d.uploads[fd], d.uploads[fd].content;
    assert UploadOpenable(d, u);
    during := Drain(h, d, fd);
    ReceivesOnly(h, d, during, u.owner, u.fileName, u.parent, c);
    var d2 := Drained(d, fd);
    var d3 := PutsEnd(d2, fd);
    assert RowOk(d.users, d.rows, d.nextId, d.nextId);
    if id :| IsFileOf(d.rows, id, u.owner, u.fileName, u.parent) && d.rows[id].md5 != h.md5(c) {
      later := [];
      assert IsFileOf(d3.rows, id, u.owner, u.fileName, u.parent) && d3.rows[id].md5 != h.md5(c);
    } else {
      var k :| k in d.uploads && Targets(d.uploads[k], u.owner, u.fileName, u.parent)
               && d.uploads[k].digest != h.md5(c);
      assert k != fd && d3.uploads[k] == d.uploads[k];
      later := Ending(d3, k);
      EndingRuns(h, d3, k);
      EndingRemovesNothing(h, d3, k, u.owner, u.fileName, u.parent);
      EndedElse(h, d3, k, c);
    }
  }

  lemma EndedElse(h: Hashes, d: Disk, k: int, c: seq<byte>)
    requires k in d.uploads && d.uploads[k].owner in d.users && d.uploads[k].digest != h.md5(c)
    ensures var u := d.uploads[k]; !ReadsBack(h, PutsEnd(Ready(d, k), k), u.owner, u.fileName, u.parent, c)
  {
    var u := d.uploads[k];
    assert IsFileOf(PutsEnd(Ready(d, k), k).rows, d.nextId, u.owner, u.fileName, u.parent);
  }

  /**
   Exactly when an upload of a user, once its file is open, is read back whatever happens: when what the
   store has is in place for it, no other upload of its content is unfinished (but its creator may be when
   this one has finished), and the place has neither rows nor uploads of something else.
   */
  lemma ReadYourWritesExactly(h: Hashes, d: Disk, fd: int)
    requires Sound(h, d) && Injective(h.md5) && fd in d.uploads && d.uploads[fd].isOpen
    requires d.uploads[fd].owner in d.users
    ensures Settled(h, d, fd) <==> AlwaysReadBack(h, d, fd)
  {
    var u := d.uploads[fd];
    if Settled(h, d, fd) {
      forall during, later | Continues(h, d, fd, during, later)
        ensures ReadsBack(h, Run(h, PutsEnd(Run(h, d, during), fd), later), u.owner, u.fileName, u.parent, u.content)
      {
        SettledIsStored(h, d, fd, during, later);
        StoredReadsBack(h, Run(h, PutsEnd(Run(h, d, during), fd), later), u.owner, u.fileName, u.parent, u.content);
      }
    } else if Filling(h, d, fd, u.content) {
      var during, later := UnreservedBreaks(h, d, fd);
    } else {
      var during, later := UnfilledBreaks(h, d, fd);
    }
  }

  /**
   What the server could look at when it opens the file: exactly then the upload is settled. With the whole
   content there, an unfinished upload does no harm if it is the one that created the file.
   */
  lemma OpenSettlesExactly(h: Hashes, d: Disk, fd: int)
    requires Sound(h, d) && Injective(h.md5) && fd in d.uploads && !d.uploads[fd].isOpen
    ensures var u := d.uploads[fd];
            Settled(h, PutsOpen(d, fd), fd) <==>
            && (u.digest in d.store ==> d.store[u.digest] <= u.content)
            && NoRival(h, d, fd, u.content, u.digest in d.store && d.store[u.digest] == u.content)
            && Reserved(h, d, u.owner, u.fileName, u.parent, u.content)
  {
    var u, after := d.uploads[fd], PutsOpen(d, fd);
    var v, c, file := after.uploads[fd], u.content, after.store[u.digest];
    assert forall k :: k in d.uploads && k != fd ==> after.uploads[k] == d.uploads[k];
    assert Reserved(h, after, u.owner, u.fileName, u.parent, c) <==> Reserved(h, d, u.owner, u.fileName, u.parent, c);
    if u.digest in d.store {
      OpenedInPlace(file, v, c);
      assert file <= c ==> (Complete(v) <==> file == c);
    } else {
      assert Opened(d.store, u.digest)[u.digest] == [] && c[..0] == [];
      forall k | k in d.uploads ensures !Feeds(h, d.uploads[k], c) {
        assert UploadOpenable(d, d.uploads[k]);
      }
    }
  }

  lemma OpenedInPlace(file: seq<byte>, u: Upload, c: seq<byte>)
    requires u.pos == |file| && !u.creator
    ensures InPlace(file, u, c) <==> file <= c
  {
  }

  /**
   And what every later step must not do: a settled upload stays settled exactly when the step neither
   accepts an upload of something else to its place nor opens its unfinished content while it is writing to it.
   */
  lemma StaysSettledExactly(h: Hashes, d: Disk, fd: int, a: Action)
    requires Sound(h, d) && Injective(h.md5) && Settled(h, d, fd) && Allowed(h, d, a) && a != EndPuts(fd)
    ensures var u := d.uploads[fd];
            Settled(h, Apply(h, d, a), fd) <==>
            !Crowds(h, d, a, u.content) && !Claims(h, d, a, u.owner, u.fileName, u.parent, u.content)
  {
    var u, after := d.uploads[fd], Apply(h, d, a);
    StepKeepsUpload(h, d, a, fd);
    if Claims(h, d, a, u.owner, u.fileName, u.parent, u.content) {
      assert Targets(after.uploads[a.fd], u.owner, u.fileName, u.parent);
      UploadsOf(h, d, a);
    } else if Crowds(h, d, a, u.content) {
      CrowdedUnsettles(h, d, fd, a.fd);
    } else {
      StepKeepsReserved(h, d, a, u.owner, u.fileName, u.parent, u.content);
      StepKeepsFilling(h, d, a, fd, u.content);
    }
  }

  lemma ShortIsUnfinished(file: seq<byte>, u: Upload, c: seq<byte>)
    requires InPlace(file, u, c) && |file| < |c|
    ensures u.pos < |c|
  {
  }

  lemma CrowdedUnsettles(h: Hashes, d: Disk, fd: int, k: int)
    requires Sound(h, d) && Injective(h.md5) && Settled(h, d, fd) && k in d.uploads && !d.uploads[k].isOpen
    requires Crowds(h, d, OpenPuts(k), d.uploads[fd].content)
    ensures k != fd && !Filling(h, PutsOpen(d, k), fd, d.uploads[fd].content)
  {
    var u, c, after := d.uploads[fd], d.uploads[fd].content, PutsOpen(d, k);
    assert d.uploads[k].content == c;
    ShortIsUnfinished(d.store[h.md5(c)], u, c);
    assert Feeds(h, after.uploads[k], c) && !Complete(after.uploads[k]) && after.uploads[fd] == u;
  }

  // ---- Interrupted uploads -------------------------------------------------------------------

  /**
   The row of an upload is inserted also when the transfer broke off: then gets finds the file and
   promises its digest, but of the content the store need hold only what had arrived.
   */
  lemma InterruptedIsListed(h: Hashes, d: Disk, fd: int, reader: int, option: string)
    requires Sound(h, d) && Settled(h, d, fd) && d.uploads[fd].owner in d.users
    requires reader in d.sessions && d.sessions[reader].name == d.uploads[fd].owner
    requires FileTarget(PutsEnd(d, fd).rows, TransferPath(d.sessions[reader], option)) ==
             Some((d.uploads[fd].parent, d.uploads[fd].fileName))
    ensures var u, c, after := d.uploads[fd], d.uploads[fd].content, PutsEnd(d, fd);
            && Named(h, after, u.owner, u.fileName, u.parent, c)
            && Gets(after, reader, option) == Sending(u.fileName, h.md5(c))
            && h.md5(c) in after.store && InPlace(after.store[h.md5(c)], u, c)
            && (Tidy(h, d, c) ==> after.store[h.md5(c)] == c[..u.pos] || after.store[h.md5(c)] == c)
            && (Stored(h, after, u.owner, u.fileName, u.parent, c) <==> after.store[h.md5(c)] == c)
  {
    var u := d.uploads[fd];
    EndNames(h, d, fd);
    assert InPlace(d.store[h.md5(u.content)], u, u.content);
  }

  /** Such an end leaves the content in order for the next upload of it exactly when the store has a beginning of it. */
  lemma InterruptedIsTidy(h: Hashes, d: Disk, fd: int)
    requires Sound(h, d) && Settled(h, d, fd)
    ensures var c := d.uploads[fd].content; Tidy(h, PutsEnd(d, fd), c) <==> d.store[h.md5(c)] <= c
  {
    var c := d.uploads[fd].content;
    if Complete(d.uploads[fd]) {
      FilledIsHeld(h, d, fd, c);
    }
  }

  /**
   A later upload of the same content, by any user to any path, completes it: as soon as that upload has
   received everything, every place that was named before and not removed meanwhile is stored.
   */
  lemma LaterUploadCompletes(
    h: Hashes, d: Disk, owner: string, name: string, parent: nat, c: seq<byte>, run: seq<Action>, fd: int)
    requires Sound(h, d) && Injective(h.md5) && Named(h, d, owner, name, parent, c) && Tidy(h, d, c)
    requires CanRun(h, d, run) && Uncrowded(h, d, run, c) && NoRemoval(h, d, run, owner, name, parent)
    requires var e := Run(h, d, run);
             fd in e.uploads && e.uploads[fd].isOpen && e.uploads[fd].content == c && Complete(e.uploads[fd])
    ensures Stored(h, Run(h, d, run), owner, name, parent, c)
  {
    var e := Run(h, d, run);
    RunKeepsTidy(h, d, run, c);
    RunKeepsNamed(h, d, run, owner, name, parent, c);
    TidyFills(h, e, fd, c);
    FilledIsHeld(h, e, fd, c);
  }
}
