/**
 Where the promise of NetDiskFiles ends: when accepting an upload is safe for all files of the disk, the
 two ways in which overlap breaks them, and whose files the commands show, send, delete and put where.
 */
module NetDiskLimits {
  import opened Options
  import opened Bytes
  import opened PathWalk
  import opened NetDisk
  import opened NetDiskFiles
  import opened Draining

  // ---- When an upload may be accepted --------------------------------------------------------

  predicate NoPuts(run: seq<Action>) { forall k :: 0 <= k < |run| ==> !run[k].DoPuts? }

  /** Whatever happens next, short of accepting more uploads, files stay unique and stored files right. */
  ghost predicate SafeAfterwards(h: Hashes, d: Disk) {
    forall run :: CanRun(h, d, run) && NoPuts(run) ==>
      UniqueFiles(Run(h, d, run).rows) && StoreInv(h, Run(h, d, run).store)
  }

  lemma {:induction false} NoPutsNoOverlap(h: Hashes, d: Disk, run: seq<Action>)
    requires CanRun(h, d, run) && NoPuts(run)
    ensures NoOverlapRun(h, d, run)
    decreases |run|
  {
    if run != [] {
      NoPutsNoOverlap(h, Apply(h, d, run[0]), run[1..]);
    }
  }

  /**
   Two open uploads of one content that is not all there yet, at the end of the file: first the one, which
   may have created the file, and then the other, which appends, can write all that was missing.
   */
  lemma BothDrain(h: Hashes, d: Disk, a: int, b: int) returns (run: seq<Action>)
    requires a != b && a in d.uploads && b in d.uploads && d.uploads[a].isOpen && d.uploads[b].isOpen
    requires var u, v := d.uploads[a], d.uploads[b];
             && u.digest == v.digest && u.digest in d.store && u.content == v.content && !v.creator
             && |d.store[u.digest]| == u.pos == v.pos < |u.content|
    ensures CanRun(h, d, run) && NoPuts(run)
    ensures var u, after := d.uploads[a], Run(h, d, run).store;
            u.digest in after && |after[u.digest]| > |u.content|
  {
    var u := d.uploads[a];
    var one := Drain(h, d, a);
    var mid := Drained(d, a);
    AtTheEnd(d.store[u.digest], u, u.content[u.pos..]);
    assert mid.uploads[b] == d.uploads[b];
    var two := Drain(h, mid, b);
    RunConcat(h, d, one, two);
    run := one + two;
  }

  /**
   Both may have their file still to open; the first one to do so may then create it, and the second one
   finds it. Who has it open already, and created it, is to be the first.
   */
  lemma BothOpenAndDrain(h: Hashes, d: Disk, a: int, b: int) returns (run: seq<Action>)
    requires a != b && a in d.uploads && b in d.uploads
    requires var u, v := d.uploads[a], d.uploads[b];
             && u.digest == v.digest && u.content == v.content && !v.isOpen
             && |Opened(d.store, u.digest)[u.digest]| < |u.content|
             && (u.isOpen ==> u.digest in d.store && |d.store[u.digest]| == u.pos)
    ensures CanRun(h, d, run) && NoPuts(run)
    ensures var u, after := d.uploads[a], Run(h, d, run).store;
            u.digest in after && |after[u.digest]| > |u.content|
  {
    OpeningRuns(h, d, a);
    var one := Ready(d, a);
    assert one.uploads[b] == d.uploads[b];
    OpeningRuns(h, one, b);
    var two := Ready(one, b);
    assert two.uploads[a] == one.uploads[a];
    RunConcat(h, d, Opening(d, a), Opening(one, b));
    var rest := BothDrain(h, two, a, b);
    RunConcat(h, d, Opening(d, a) + Opening(one, b), rest);
    run := Opening(d, a) + Opening(one, b) + rest;
  }

  /** What the end of an upload leaves behind, whether its file was open or not. */
  lemma Ended(d: Disk, a: int)
    requires a in d.uploads && d.uploads[a].owner in d.users
    ensures var u, after := d.uploads[a], PutsEnd(Ready(d, a), a);
            && after.rows == d.rows[d.nextId := Row(u.owner, u.fileName, false, u.digest, u.parent)]
            && after.nextId == d.nextId + 1 && after.users == d.users && after.uploads == d.uploads - {a}
  {
    assert Ready(d, a).uploads - {a} == d.uploads - {a};
  }

  /** Two uploads to one name can both end, and both rows are inserted. */
  lemma OverlapOnOneName(h: Hashes, d: Disk, a: int, b: int) returns (run: seq<Action>)
    requires a != b && a in d.uploads && b in d.uploads && SameTarget(d.uploads[a], d.uploads[b])
    requires d.uploads[a].owner in d.users
    ensures CanRun(h, d, run) && NoPuts(run) && !UniqueFiles(Run(h, d, run).rows)
  {
    var one := PutsEnd(Ready(d, a), a);
    Ended(d, a);
    EndingRuns(h, d, a);
    EndingRuns(h, one, b);
    RunConcat(h, d, Ending(d, a), Ending(one, b));
    run := Ending(d, a) + Ending(one, b);
    BothRows(d, one, a, b);
  }

  lemma BothRows(d: Disk, one: Disk, a: int, b: int)
    requires a != b && a in d.uploads && b in d.uploads && SameTarget(d.uploads[a], d.uploads[b])
    requires d.uploads[a].owner in d.users && one == PutsEnd(Ready(d, a), a) && one.uploads == d.uploads - {a}
    ensures !UniqueFiles(PutsEnd(Ready(one, b), b).rows)
  {
    var u, two := d.uploads[a], PutsEnd(Ready(one, b), b);
    Ended(d, a);
    Ended(one, b);
    assert IsFileOf(two.rows, d.nextId, u.owner, u.fileName, u.parent);
    assert IsFileOf(two.rows, one.nextId, u.owner, u.fileName, u.parent);
  }

  /**
   Exactly when accepting an upload of a logged-in user is safe: when no upload in progress goes to the
   same file, and none has the same digest unless the store holds all of that content already.
   */
  lemma AcceptExactly(h: Hashes, d: Disk, a: Action)
    requires Inv(d) && FilesInv(h, d) && Injective(h.md5)
    requires a.DoPuts? && Allowed(h, d, a) && a.fd in Apply(h, d, a).uploads
    requires d.sessions[a.fd].name in d.users
    ensures NoOverlap(h, d, a) <==> SafeAfterwards(h, Apply(h, d, a))
  {
    var after := Apply(h, d, a);
    StepKeepsInv(h, d, a);
    if NoOverlap(h, d, a) {
      StepKeepsFiles(h, d, a);
      forall run | CanRun(h, after, run) && NoPuts(run)
        ensures UniqueFiles(Run(h, after, run).rows) && StoreInv(h, Run(h, after, run).store)
      {
        NoPutsNoOverlap(h, after, run);
        RunKeepsFiles(h, after, run);
      }
    } else {
      OverlapIsUnsafe(h, d, a);
    }
  }

  lemma OverlapIsUnsafe(h: Hashes, d: Disk, a: Action)
    requires Inv(d) && FilesInv(h, d) && Injective(h.md5)
    requires a.DoPuts? && Allowed(h, d, a) && a.fd in Apply(h, d, a).uploads
    requires d.sessions[a.fd].name in d.users && !NoOverlap(h, d, a)
    ensures !SafeAfterwards(h, Apply(h, d, a))
  {
    var after := Apply(h, d, a);
    StepKeepsInv(h, d, a);
    NotingSteps(h, d, a);
    var fd :| fd in d.uploads && (SameTarget(d.uploads[fd], after.uploads[a.fd])
              || (d.uploads[fd].digest == a.digest && !Whole(d, after.uploads[a.fd])));
    assert fd != a.fd;
    NewUpload(d, a.fd, a.option, a.digest, a.content);
    assert UploadOk(h, d, fd);
    if SameTarget(d.uploads[fd], after.uploads[a.fd]) {
      var run := OverlapOnOneName(h, after, fd, a.fd);
    } else {
      assert d.uploads[fd].content == a.content;
      var run := BothOpenAndDrain(h, after, fd, a.fd);
      assert h.md5(a.content) in Run(h, after, run).store;
    }
  }

  lemma NewUpload(d: Disk, fd: int, option: string, digest: string, content: seq<byte>)
    requires Idle(d, fd) && fd in PutsBegin(d, fd, option, digest, content).0.uploads
    ensures var after := PutsBegin(d, fd, option, digest, content).0;
            var u := after.uploads[fd];
            && after.uploads == d.uploads[fd := u] && u.owner == d.sessions[fd].name
            && u.digest == digest && u.content == content && !u.isOpen
  {
  }

  // ---- Whose files -------------------------------------------------------------------------

  /** The paths of cd, ls and remove begin with a slash, or are empty before a login. */
  lemma ShellPathRooted(d: Disk, fd: int, option: string)
    requires Inv(d) && fd in d.sessions
    ensures var q := ShellPath(d.sessions[fd], option); q == "" || q[0] == '/'
  {
    assert SessionOk(d.users, d.rows, d.sessions[fd]);
  }

  /** So gets takes such a path as it stands. */
  lemma GetsTakes(rows: Table, s: Session, q: string)
    requires q == "" || q[0] == '/'
    ensures FileTarget(rows, TransferPath(s, q)) == FileTarget(rows, q) || (q == "" && FileTarget(rows, q) == None)
  {
    if q == "" {
      assert Split(Tail(q)) == [""];
    }
  }

  lemma {:induction false} OneAnswerKept(rows: Table, after: Table, from: nat, parts: seq<string>)
    requires DirsKept(rows, after) && OneAnswer(rows, from, parts)
    requires forall id :: id in after && after[id].isDir ==> id in rows && rows[id] == after[id]
    ensures OneAnswer(after, from, parts)
    decreases |parts|
  {
    if parts != [] && FindDir(after, parts[0], from).Some? {
      var next := FindDir(after, parts[0], from).value;
      assert IsDirNamed(rows, next, parts[0], from);
      forall id | IsDirNamed(after, id, parts[0], from) ensures id == next {
        assert IsDirNamed(rows, id, parts[0], from);
      }
      OneAnswerKept(rows, after, next, parts[1..]);
    }
  }

  /**
   remove finds something exactly when gets of the same path would send it, and deletes that row, which is
   the session's own, and nothing else. Afterwards gets finds nothing there exactly when it was the only one.
   */
  lemma RemoveForgetsExactly(d: Disk, fd: int, option: string)
    requires Inv(d) && Idle(d, fd)
    ensures var q, (begun, reply) := ShellPath(d.sessions[fd], option), RemoveBegin(d, fd, option);
            && (reply == Removed <==> Gets(d, fd, q).Sending?)
            && (reply != Removed ==> begun == d)
            && (reply == Removed ==>
                  && fd in begun.removing && IsFile(d, begun.removing[fd], d.sessions[fd].name, q)
                  && RemoveEnd(begun, fd) == d.(rows := d.rows - {begun.removing[fd]})
                  && (OneAnswer(d.rows, ROOT, DirParts(q)) ==>
                        (Gets(RemoveEnd(begun, fd), fd, q) == NoSuchFile <==>
                         forall other :: IsFile(d, other, d.sessions[fd].name, q) ==> other == begun.removing[fd])))
  {
    var q := ShellPath(d.sessions[fd], option);
    ShellPathRooted(d, fd, option);
    GetsTakes(d.rows, d.sessions[fd], q);
    if Found(d, fd, q).Some? {
      RemovedIs(d, fd, option);
      if OneAnswer(d.rows, ROOT, DirParts(q)) {
        RemovedRow(d, fd, q);
      }
    }
  }

  /** The row is a file of that user under that path. */
  ghost predicate IsFile(d: Disk, id: nat, owner: string, path: string) {
    && FileTarget(d.rows, path).Some?
    && IsFileOf(d.rows, id, owner, FileTarget(d.rows, path).value.1, FileTarget(d.rows, path).value.0)
  }

  lemma RemovedIs(d: Disk, fd: int, option: string)
    requires Idle(d, fd) && Found(d, fd, ShellPath(d.sessions[fd], option)).Some?
    ensures var id, begun := Found(d, fd, ShellPath(d.sessions[fd], option)).value, RemoveBegin(d, fd, option).0;
            && begun == d.(removing := d.removing[fd := id])
            && RemoveEnd(begun, fd) == d.(rows := d.rows - {id})
            && IsFile(d, id, d.sessions[fd].name, ShellPath(d.sessions[fd], option))
  {
    var id := Found(d, fd, ShellPath(d.sessions[fd], option)).value;
    assert d.removing[fd := id] - {fd} == d.removing;
  }

  lemma RemovedRow(d: Disk, fd: int, q: string)
    requires Inv(d) && Idle(d, fd) && Found(d, fd, q).Some? && OneAnswer(d.rows, ROOT, DirParts(q))
    requires q != "" && q[0] == '/'
    ensures var id := Found(d, fd, q).value;
            Gets(d.(rows := d.rows - {id}), fd, q) == NoSuchFile <==>
            forall other :: IsFile(d, other, d.sessions[fd].name, q) ==> other == id
  {
    var id, owner := Found(d, fd, q).value, d.sessions[fd].name;
    var rows := d.rows - {id};
    var (dir, name) := FileTarget(d.rows, q).value;
    OneAnswerKept(d.rows, rows, ROOT, DirParts(q));
    FileTargetStable(d.rows, rows, q);
    var found := FindFile(rows, owner, name, dir);
    assert Gets(d.(rows := rows), fd, q) == NoSuchFile <==> found == None;
    if other :| IsFile(d, other, owner, q) && other != id {
      assert IsFileOf(rows, other, owner, name, dir);
    } else if found.Some? {
      assert IsFile(d, found.value, owner, q);
    }
  }

  /** gets sends only files of the session's own user, and the store has the file it names. */
  lemma GetsOwnFiles(d: Disk, fd: int, option: string)
    requires Inv(d) && fd in d.sessions && Gets(d, fd, option).Sending?
    ensures Gets(d, fd, option).digest in d.store
    ensures exists id :: id in d.rows && !d.rows[id].isDir && d.rows[id].owner == d.sessions[fd].name
                         && d.rows[id].md5 == Gets(d, fd, option).digest
  {
    var id := Found(d, fd, TransferPath(d.sessions[fd], option)).value;
    assert id in d.rows;
  }

  /** The path of a listed row: that of the directory, a slash, and the row's name. */
  function ListedPath(d: Disk, fd: int, option: string, id: nat): string
    requires fd in d.sessions && id in d.rows
  {
    DropSlash(ShellPath(d.sessions[fd], option)) + "/" + d.rows[id].fileName
  }

  lemma ListedTarget(d: Disk, fd: int, option: string, id: nat)
    requires Inv(d) && fd in d.sessions && id in d.rows
    requires Ls(d, fd, option).Listing? && id in Ls(d, fd, option).ids
    ensures var path := ListedPath(d, fd, option, id);
            && TransferPath(d.sessions[fd], path) == path
            && FileTarget(d.rows, path) == Some((d.rows[id].parent, d.rows[id].fileName))
  {
    var q, name := ShellPath(d.sessions[fd], option), d.rows[id].fileName;
    assert RowOk(d.users, d.rows, d.nextId, id);
    NamesNotEmpty(d.users, d.rows, d.nextId);
    ShellPathRooted(d, fd, option);
    CanonicalPath(d.rows, q);
    RelativeFile(d.rows, DropSlash(q), name);
    FileHere(d.rows, d.rows[id].parent, name);
  }

  /**
   ls does not look at owners: it lists every row below the directory. What gets then finds under a
   listed file's path is a file of the session's user, and it is the listed one exactly when that user
   owns it.
   */
  lemma ListedIsGotExactly(d: Disk, fd: int, option: string, id: nat)
    requires Inv(d) && UniqueFiles(d.rows) && fd in d.sessions && id in d.rows && !d.rows[id].isDir
    requires Ls(d, fd, option).Listing? && id in Ls(d, fd, option).ids
    ensures var path, owner := ListedPath(d, fd, option, id), d.sessions[fd].name;
            && (Found(d, fd, TransferPath(d.sessions[fd], path)) == Some(id) <==> d.rows[id].owner == owner)
            && (Gets(d, fd, path).Sending? <==>
                exists own :: IsFileOf(d.rows, own, owner, d.rows[id].fileName, d.rows[id].parent))
  {
    var row, owner := d.rows[id], d.sessions[fd].name;
    ListedTarget(d, fd, option, id);
    if row.owner == owner {
      FindFileIs(d.rows, id, owner, row.fileName, row.parent);
    }
  }

  lemma {:induction false} NamesHaveNoSlash(users: map<string, User>, rows: Table, nextId: nat, dir: nat)
    requires TreeInv(users, rows, nextId) && dir in rows && rows[dir].isDir
    ensures forall k :: 0 <= k < |NamesTo(users, rows, nextId, dir)| ==> '/' !in NamesTo(users, rows, nextId, dir)[k]
    decreases dir
  {
    assert RowOk(users, rows, nextId, dir);
    if dir != ROOT {
      NamesHaveNoSlash(users, rows, nextId, rows[dir].parent);
    }
  }

  /** The absolute path of a name in a directory. */
  ghost function PathIn(d: Disk, dir: nat, name: string): string
    requires Inv(d) && dir in d.rows && d.rows[dir].isDir
  {
    "/" + Join(NamesTo(d.users, d.rows, d.nextId, dir) + [name])
  }

  lemma PathInLeadsThere(d: Disk, dir: nat, name: string)
    requires Inv(d) && dir in d.rows && d.rows[dir].isDir && name != "" && '/' !in name
    requires forall other :: !Twins(d.rows, dir, other)
    ensures FileTarget(d.rows, PathIn(d, dir, name)) == Some((dir, name))
  {
    var names := NamesTo(d.users, d.rows, d.nextId, dir);
    var parts := names + [name];
    NamesHaveNoSlash(d.users, d.rows, d.nextId, dir);
    SplitJoin(parts);
    assert Tail(PathIn(d, dir, name)) == Join(parts);
    assert parts[..|parts| - 1] == names;
    EveryDirectoryIsReachable(d.users, d.rows, d.nextId, dir);
  }

  /**
   puts does not look at the directory's owner either: a user can put a file into any directory, whoever
   owns it, under any name that the user has no file of there.
   */
  lemma AnyoneCanPlace(h: Hashes, d: Disk, fd: int, dir: nat, name: string, c: seq<byte>) returns (run: seq<Action>)
    requires Inv(d) && Idle(d, fd) && d.sessions[fd].name in d.users
    requires dir in d.rows && d.rows[dir].isDir && forall other :: !Twins(d.rows, dir, other)
    requires name != "" && '/' !in name && forall id :: !IsFileOf(d.rows, id, d.sessions[fd].name, name, dir)
    ensures CanRun(h, d, run)
    ensures Run(h, d, run).rows == d.rows[d.nextId := Row(d.sessions[fd].name, name, false, h.md5(c), dir)]
  {
    PathInLeadsThere(d, dir, name);
    var a := DoPuts(fd, PathIn(d, dir, name), h.md5(c), c);
    var after := PutsBegin(d, fd, PathIn(d, dir, name), h.md5(c), c).0;
    assert after.uploads[fd] == Upload(d.sessions[fd].name, name, dir, h.md5(c), c, false, false, 0);
    EndingRuns(h, after, fd);
    RunFirst(h, d, a, Ending(after, fd));
    run := [a] + Ending(after, fd);
  }

  /** For example user ddrh sees the file that only user 1 can get. */
  lemma LsShowsOthersFiles(d: Disk, fd: int)
    requires d.rows == SeedRows() && fd in d.sessions && d.sessions[fd].name == "ddrh"
    ensures Ls(d, fd, HomePath("1")).Listing? && 11 in Ls(d, fd, HomePath("1")).ids && d.rows[11].owner == "1"
    ensures forall name :: !IsFileOf(d.rows, 11, d.sessions[fd].name, name, 5)
  {
    SeedHome("1", 5);
    assert HomePath("1")[0] == '/';
  }
}
