/**
 Sessions over runs: who can log in after a registration, where a session stands while others go on, and
 one user's uploads and everybody's listings in the terms of where sessions stand.
 */
module Sessions {
  import opened Options
  import opened Bytes
  import opened PathWalk
  import opened NetDisk
  import opened SteadyPaths
  import opened ReadBack
  import opened ReadYourWrites
  import opened NetDiskLimits
  import opened Commands

  // ---- Passwords ---------------------------------------------------------------------------

  /** A registration under way stays the one that was accepted until it ends. */
  lemma StepKeepsRegistration(h: Hashes, d: Disk, a: Action, fd: int)
    requires Allowed(h, d, a) && fd in d.registering && a != EndRegist(fd)
    ensures var after := Apply(h, d, a); fd in after.registering && after.registering[fd] == d.registering[fd]
  {
    if a.Connect? || a.Disconnect? || a.DoCd? || a.DoLogin? {
      SessionSteps(h, d, a);
    } else {
      NotingSteps(h, d, a);
    }
  }

  lemma {:induction false} RunKeepsRegistration(h: Hashes, d: Disk, run: seq<Action>, fd: int)
    requires CanRun(h, d, run) && fd in d.registering && EndRegist(fd) !in run
    ensures var after := Run(h, d, run); fd in after.registering && after.registering[fd] == d.registering[fd]
    decreases |run|
  {
    if run != [] {
      StepKeepsRegistration(h, d, run[0], fd);
      assert EndRegist(fd) !in run[1..];
      RunKeepsRegistration(h, Apply(h, d, run[0]), run[1..], fd);
    }
  }

  /** A login with the name and the code: what it answers, and the state it leaves. */
  ghost predicate LoginIs(h: Hashes, d: Disk, fd: int, name: string, code: string, accepted: bool, home: string)
    requires Idle(d, fd)
  {
    var (after, reply) := Login(h, d, fd, name, code);
    if accepted then reply == Success && after == d.(sessions := d.sessions[fd := Session(name, home)])
    else reply == LoginFailure && after == d
  }

  /**
   Whatever has happened since, a user logs in with exactly the codes whose hash with the stored salt is the
   stored one.
   */
  lemma UserLogsInExactly(h: Hashes, d: Disk, later: seq<Action>, fd: int, name: string, x: string)
    requires CanRun(h, d, later) && Idle(Run(h, d, later), fd) && name in d.users
    ensures var u := d.users[name];
            LoginIs(h, Run(h, d, later), fd, name, x, h.crypt(x, u.salt) == u.code, u.path)
  {
    UsersStay(h, d, later, name);
  }

  /** A name that nobody has registered logs in with no code. */
  lemma UnknownNameFails(h: Hashes, d: Disk, fd: int, name: string, x: string)
    requires Idle(d, fd) && name !in d.users
    ensures LoginIs(h, d, fd, name, x, false, "")
  {
  }

  /**
   A registration of a name that is no user is accepted, others' commands go on (`between`), it ends, anything
   follows (`later`), and an idle connection logs in with that name and a code x. If nobody else has registered
   the name meanwhile, it succeeds exactly when x hashes with the salt as the registered code does, and gives
   the name and its home; if somebody has, the code that counts is the one stored then, and not this one.
   */
  lemma RegistrationLogsInExactly(
    h: Hashes, d: Disk, reg: int, name: string, salt: string, code: string, between: seq<Action>, later: seq<Action>,
    fd: int, x: string)
    requires var a := DoRegist(reg, name, salt, code);
             && Allowed(h, d, a) && name !in d.users && CanRun(h, Apply(h, d, a), between) && EndRegist(reg) !in between
             && var mid := Run(h, Apply(h, d, a), between);
                && (reg in mid.registering ==>
                      CanRun(h, RegistEnd(h, mid, reg), later) && Idle(Run(h, RegistEnd(h, mid, reg), later), fd))
    ensures var mid := Run(h, Apply(h, d, DoRegist(reg, name, salt, code)), between);
            && reg in mid.registering && CanRun(h, RegistEnd(h, mid, reg), later)
            && var end := Run(h, RegistEnd(h, mid, reg), later);
               Idle(end, fd) &&
               if name in mid.users
               then var u := mid.users[name]; LoginIs(h, end, fd, name, x, h.crypt(x, u.salt) == u.code, u.path)
               else LoginIs(h, end, fd, name, x, h.crypt(x, salt) == h.crypt(code, salt), "/root/" + name)
  {
    var first := Apply(h, d, DoRegist(reg, name, salt, code));
    assert first.registering[reg] == Registration(name, salt, code);
    RunKeepsRegistration(h, first, between, reg);
    var mid := Run(h, first, between);
    UserLogsInExactly(h, RegistEnd(h, mid, reg), later, fd, name, x);
  }

  /**
   Of two registrations of one name under way the code of the first to end counts for ever: the other one's
   code logs in exactly when it hashes alike.
   */
  lemma LosingCodeExactly(
    h: Hashes, d: Disk, a: int, b: int, between: seq<Action>, later: seq<Action>, fd: int, x: string)
    requires a != b && a in d.registering && b in d.registering
    requires d.registering[a].name == d.registering[b].name && d.registering[a].name !in d.users
    requires CanRun(h, RegistEnd(h, d, a), between) && EndRegist(b) !in between
    requires var mid := Run(h, RegistEnd(h, d, a), between);
             b in mid.registering ==>
               CanRun(h, RegistEnd(h, mid, b), later) && Idle(Run(h, RegistEnd(h, mid, b), later), fd)
    ensures var mid, r := Run(h, RegistEnd(h, d, a), between), d.registering[a];
            && b in mid.registering && CanRun(h, RegistEnd(h, mid, b), later)
            && var end := Run(h, RegistEnd(h, mid, b), later);
               && Idle(end, fd)
               && LoginIs(h, end, fd, r.name, x, h.crypt(x, r.salt) == h.crypt(r.code, r.salt), "/root/" + r.name)
  {
    var one, name := RegistEnd(h, d, a), d.registering[a].name;
    RunKeepsRegistration(h, one, between, b);
    UsersStay(h, one, between, name);
    var mid := Run(h, one, between);
    UserLogsInExactly(h, RegistEnd(h, mid, b), later, fd, name, x);
  }

  /** A registration leaves its session standing in a directory of the user's name below the root. */
  lemma StandsAtHome(h: Hashes, d: Disk, fd: int)
    requires Inv(d) && fd in d.registering
    ensures var after, name := RegistEnd(h, d, fd), d.registering[fd].name;
            var here := Here(after.rows, after.sessions[fd]);
            && after.sessions[fd].name == name
            && here.Some? && IsDirNamed(after.rows, here.value, name, ROOT)
            && (UniqueDirs(after.rows) ==> here == Some(d.nextId))
  {
    var after, name := RegistEnd(h, d, fd), d.registering[fd].name;
    RegistEndKeepsInv(h, d, fd);
    assert RegistrationOk(d.rows, d.registering[fd]);
    HomeResolves(after.rows, d.nextId, name);
  }

  /** And so does a login, for the path that a registration stores. */
  lemma LoginComesHome(d: Disk, name: string)
    requires Inv(d) && name in d.users && d.users[name].path == "/root/" + name && '/' !in name
    ensures var here := Here(d.rows, Session(name, d.users[name].path));
            here == FindDir(d.rows, name, ROOT) && here.Some?
  {
    HomeResolves(d.rows, FindDir(d.rows, name, ROOT).value, name);
  }

  // ---- Where a session stands ----------------------------------------------------------------

  /** The steps that change the session of their connection. */
  predicate Changes(a: Action) { a.Connect? || a.Disconnect? || a.DoCd? || a.DoLogin? || a.EndRegist? }

  predicate LeavesAlone(run: seq<Action>, fd: int) {
    forall k :: 0 <= k < |run| && Changes(run[k]) ==> run[k].fd != fd
  }

  lemma StepKeepsSession(h: Hashes, d: Disk, a: Action, fd: int)
    requires Allowed(h, d, a) && fd in d.sessions && (Changes(a) ==> a.fd != fd)
    ensures var after := Apply(h, d, a); fd in after.sessions && after.sessions[fd] == d.sessions[fd]
  {
    if !Changes(a) {
      NotingSteps(h, d, a);
    }
  }

  /**
   While others run any commands, and the session itself any but cd, login, registration and its end, it goes
   on standing in the same directory, if its path is steady.
   */
  lemma {:induction false} StaysThere(h: Hashes, d: Disk, run: seq<Action>, fd: int)
    requires Inv(d) && CanRun(h, d, run) && fd in d.sessions && LeavesAlone(run, fd)
    requires d.sessions[fd].path != "" ==> Steady(d, ROOT, Split(Tail(d.sessions[fd].path)))
    ensures var end := Run(h, d, run);
            && fd in end.sessions && end.sessions[fd] == d.sessions[fd]
            && Here(end.rows, end.sessions[fd]) == Here(d.rows, d.sessions[fd])
    decreases |run|
  {
    if run != [] {
      var s := d.sessions[fd];
      StepKeepsSession(h, d, run[0], fd);
      StepKeepsInv(h, d, run[0]);
      if s.path != "" {
        StepKeepsSteady(h, d, run[0], ROOT, Split(Tail(s.path)));
      }
      StaysThere(h, Apply(h, d, run[0]), run[1..], fd);
    }
  }

  // ---- Strangers -----------------------------------------------------------------------------

  /** The step gives its session a name: a registration, or a login with a code that hashes to the stored one. */
  ghost predicate Admits(h: Hashes, d: Disk, a: Action) {
    || a.EndRegist?
    || (a.DoLogin? && a.name in d.users && h.crypt(a.code, d.users[a.name].salt) == d.users[a.name].code)
  }

  ghost predicate Unadmitted(h: Hashes, d: Disk, run: seq<Action>, fd: int)
    requires CanRun(h, d, run)
    decreases |run|
  {
    run == [] ||
    (&& (run[0].fd == fd ==> !Admits(h, d, run[0]) && !run[0].Disconnect?)
     && Unadmitted(h, Apply(h, d, run[0]), run[1..], fd))
  }

  /** A connection that is nobody's. */
  ghost predicate Stranger(d: Disk, fd: int) {
    fd in d.sessions && d.sessions[fd].name == "" && (fd in d.uploads ==> d.uploads[fd].owner == "")
  }

  lemma StepKeepsStranger(h: Hashes, d: Disk, a: Action, fd: int)
    requires Allowed(h, d, a) && Stranger(d, fd) && (a.fd == fd ==> !Admits(h, d, a) && !a.Disconnect?)
    ensures Stranger(Apply(h, d, a), fd)
  {
    if !Changes(a) {
      NotingSteps(h, d, a);
    }
    if !a.DoPuts? && !a.OpenPuts? && !a.Chunk? && !a.EndPuts? {
      OtherUploads(h, d, a);
    }
  }

  lemma {:induction false} RunKeepsStranger(h: Hashes, d: Disk, run: seq<Action>, fd: int)
    requires CanRun(h, d, run) && Stranger(d, fd) && Unadmitted(h, d, run, fd)
    ensures Stranger(Run(h, d, run), fd)
    decreases |run|
  {
    if run != [] {
      StepKeepsStranger(h, d, run[0], fd);
      RunKeepsStranger(h, Apply(h, d, run[0]), run[1..], fd);
    }
  }

  lemma StepAddsNoEmptyName(h: Hashes, d: Disk, a: Action)
    requires Inv(d) && Allowed(h, d, a) && "" !in d.users
    ensures "" !in Apply(h, d, a).users
  {
    if a.EndRegist? {
      assert RegistrationOk(d.rows, d.registering[a.fd]);
    } else if !a.EndRemove? && !a.EndPuts? {
      OtherTables(h, d, a);
    }
  }

  lemma {:induction false} NamesStayNonEmpty(h: Hashes, d: Disk, run: seq<Action>)
    requires Inv(d) && CanRun(h, d, run) && "" !in d.users
    ensures "" !in Run(h, d, run).users
    decreases |run|
  {
    if run != [] {
      StepKeepsInv(h, d, run[0]);
      StepAddsNoEmptyName(h, d, run[0]);
      NamesStayNonEmpty(h, Apply(h, d, run[0]), run[1..]);
    }
  }

  /**
   A connection that has neither registered nor logged in with a right code gets no file, removes none, and
   what it uploads is never listed, whatever commands it and everybody else have run.
   */
  lemma StrangersGetNothing(h: Hashes, d: Disk, fd: int, run: seq<Action>, option: string)
    requires Inv(d) && "" !in d.users && fd !in d.sessions
    requires var first := Apply(h, d, Connect(fd)); CanRun(h, first, run) && Unadmitted(h, first, run, fd)
    ensures var end := Run(h, Apply(h, d, Connect(fd)), run);
            && fd in end.sessions && end.sessions[fd].name == ""
            && !Gets(end, fd, option).Sending? && RemoveBegin(end, fd, option).0 == end
            && (fd in end.uploads ==> PutsEnd(end, fd).rows == end.rows)
  {
    var first := Apply(h, d, Connect(fd));
    StepKeepsInv(h, d, Connect(fd));
    RunKeepsInv(h, first, run);
    RunKeepsStranger(h, first, run, fd);
    NamesStayNonEmpty(h, first, run);
    var end := Run(h, first, run);
    forall id, name, dir ensures !IsFileOf(end.rows, id, "", name, dir) {
      assert RowOk(end.users, end.rows, end.nextId, id);
    }
  }

  // ---- Reading back from where one stands ------------------------------------------------------

  /** A stored file is sent to each session of its owner whose option leads to its place, and listed to all. */
  lemma StoredIsReached(
    h: Hashes, d: Disk, fd: int, option: string, owner: string, name: string, dir: nat, c: seq<byte>)
    requires Inv(d) && fd in d.sessions && Stored(h, d, owner, name, dir, c)
    ensures d.sessions[fd].name == owner && FileAt(d.rows, d.sessions[fd], option) == Some((dir, name)) ==>
              Gets(d, fd, option) == Sending(name, h.md5(c)) && d.store[h.md5(c)] == c
    ensures DirAt(d.rows, d.sessions[fd], option) == Some(dir) ==>
              Ls(d, fd, option).Listing? &&
              exists id :: id in Ls(d, fd, option).ids && IsFileOf(d.rows, id, owner, name, dir)
  {
    var id :| Lasting(d, id, owner, name, dir);
    TransferLeads(d.rows, d.sessions[fd], option);
    LsExactly(d, fd, option);
    if d.sessions[fd].name == owner && FileAt(d.rows, d.sessions[fd], option) == Some((dir, name)) {
      StoredIsSent(h, d, fd, option, name, dir, c);
    }
  }

  /**
   Read your writes, from where one stands: a session asks to upload c by an option that leads to a place, and
   the server accepts; commands go on until all of c has arrived and the upload ends; anything follows but a
   removal of that file. Then gets sends exactly c to every session of that user whose option leads to that
   place, from wherever it stands, and ls lists the file to everybody in that directory.
   */
  lemma ReadYourWritesFromHere(
    h: Hashes, d: Disk, fd: int, option: string, c: seq<byte>, during: seq<Action>, later: seq<Action>,
    reader: int, again: string)
    requires Sound(h, d) && Tidy(h, d, c) && Injective(h.md5)
    requires var a := DoPuts(fd, option, h.md5(c), c);
             && Allowed(h, d, a) && fd in Apply(h, d, a).uploads && d.sessions[fd].name in d.users
             && FileAt(d.rows, d.sessions[fd], option).Some?
             && var d1, owner, (dir, name) :=
                  Apply(h, d, a), d.sessions[fd].name, FileAt(d.rows, d.sessions[fd], option).value;
                && Reserved(h, d1, owner, name, dir, c) && CanRun(h, d1, during) && EndPuts(fd) !in during
                && Uncrowded(h, d1, during, c) && Unclaimed(h, d1, during, owner, name, dir, c)
                && var d2 := Run(h, d1, during);
                   && fd in d2.uploads && d2.uploads[fd].isOpen && Complete(d2.uploads[fd])
                   && CanRun(h, PutsEnd(d2, fd), later) && NoRemoval(h, PutsEnd(d2, fd), later, owner, name, dir)
                   && reader in Run(h, PutsEnd(d2, fd), later).sessions
    ensures var d2 := Run(h, Apply(h, d, DoPuts(fd, option, h.md5(c), c)), during);
            var end, owner, (dir, name) :=
              Run(h, PutsEnd(d2, fd), later), d.sessions[fd].name, FileAt(d.rows, d.sessions[fd], option).value;
            var s := end.sessions[reader];
            && (s.name == owner && FileAt(end.rows, s, again) == Some((dir, name)) ==>
                  Gets(end, reader, again) == Sending(name, h.md5(c))
                  && h.md5(c) in end.store && end.store[h.md5(c)] == c)
            && (DirAt(end.rows, s, again) == Some(dir) ==>
                  Ls(end, reader, again).Listing? &&
                  exists id :: id in Ls(end, reader, again).ids && IsFileOf(end.rows, id, owner, name, dir))
  {
    var owner := d.sessions[fd].name;
    var (dir, name) := FileAt(d.rows, d.sessions[fd], option).value;
    AcceptedHere(h, d, fd, option, c);
    var d1 := Apply(h, d, DoPuts(fd, option, h.md5(c), c));
    UserStays(h, d, DoPuts(fd, option, h.md5(c), c), owner);
    UploadIsStored(h, d1, fd, c, during, later);
    var end := Run(h, PutsEnd(Run(h, d1, during), fd), later);
    StoredIsReached(h, end, reader, again, owner, name, dir, c);
  }

  lemma AcceptedHere(h: Hashes, d: Disk, fd: int, option: string, c: seq<byte>)
    requires Sound(h, d) && Tidy(h, d, c) && Injective(h.md5)
    requires var a := DoPuts(fd, option, h.md5(c), c); Allowed(h, d, a) && fd in Apply(h, d, a).uploads
    ensures FileAt(d.rows, d.sessions[fd], option).Some?
    ensures var after := Apply(h, d, DoPuts(fd, option, h.md5(c), c));
            var u, target := after.uploads[fd], FileAt(d.rows, d.sessions[fd], option).value;
            && Sound(h, after) && Tidy(h, after, c)
            && u.owner == d.sessions[fd].name && u.content == c && u.parent == target.0 && u.fileName == target.1
  {
    var a := DoPuts(fd, option, h.md5(c), c);
    StepKeepsSound(h, d, a);
    StepKeepsTidy(h, d, a, c);
    PutsExactly(d, fd, option, h.md5(c), c);
  }

  lemma UploadIsStored(h: Hashes, d: Disk, fd: int, c: seq<byte>, during: seq<Action>, later: seq<Action>)
    requires Sound(h, d) && Tidy(h, d, c) && Injective(h.md5) && fd in d.uploads && d.uploads[fd].content == c
    requires CanRun(h, d, during) && EndPuts(fd) !in during && Uncrowded(h, d, during, c)
    requires var u, d2 := d.uploads[fd], Run(h, d, during);
             && Reserved(h, d, u.owner, u.fileName, u.parent, c)
             && Unclaimed(h, d, during, u.owner, u.fileName, u.parent, c)
             && u.owner in d.users && fd in d2.uploads && d2.uploads[fd].isOpen && Complete(d2.uploads[fd])
             && CanRun(h, PutsEnd(d2, fd), later)
             && NoRemoval(h, PutsEnd(d2, fd), later, u.owner, u.fileName, u.parent)
    ensures var u, end := d.uploads[fd], Run(h, PutsEnd(Run(h, d, during), fd), later);
            Inv(end) && Stored(h, end, u.owner, u.fileName, u.parent, c)
  {
    var u, d2 := d.uploads[fd], Run(h, d, during);
    UploadStays(h, d, during, fd);
    UsersStay(h, d, during, u.owner);
    RunKeepsTidy(h, d, during, c);
    RunKeepsReserved(h, d, during, u.owner, u.fileName, u.parent, c);
    TidyFills(h, d2, fd, c);
    CompleteUploadIsStored(h, d2, fd);
    StepKeepsSound(h, d2, EndPuts(fd));
    RunKeepsStored(h, PutsEnd(d2, fd), later, u.owner, u.fileName, u.parent, c);
    RunKeepsInv(h, PutsEnd(d2, fd), later);
  }

  /** What a user puts into any directory is listed there from then on to every session that looks. */
  lemma PlacedIsListed(h: Hashes, d: Disk, fd: int, dir: nat, name: string, c: seq<byte>) returns (run: seq<Action>)
    requires Inv(d) && Idle(d, fd) && d.sessions[fd].name in d.users
    requires dir in d.rows && d.rows[dir].isDir && forall other :: !Twins(d.rows, dir, other)
    requires name != "" && '/' !in name && forall id :: !IsFileOf(d.rows, id, d.sessions[fd].name, name, dir)
    ensures CanRun(h, d, run)
    ensures var end := Run(h, d, run);
            && IsFileOf(end.rows, d.nextId, d.sessions[fd].name, name, dir)
            && forall viewer, option ::
                 viewer in end.sessions && DirAt(end.rows, end.sessions[viewer], option) == Some(dir) ==>
                   Ls(end, viewer, option).Listing? && d.nextId in Ls(end, viewer, option).ids
  {
    run := AnyoneCanPlace(h, d, fd, dir, name, c);
    RunKeepsInv(h, d, run);
    var end := Run(h, d, run);
    forall viewer, option | viewer in end.sessions && DirAt(end.rows, end.sessions[viewer], option) == Some(dir)
      ensures Ls(end, viewer, option).Listing? && d.nextId in Ls(end, viewer, option).ids
    {
      LsExactly(end, viewer, option);
    }
  }
}
