/**
 What the commands mean to the client: where an option leads from the directory a session stands in,
 and what cd, ls, gets, puts, remove and login do there. Nothing is said here about texts of paths that
 are glued together on the way; those are compared with this by the lemmas.
 */
module Commands {
  import opened Options
  import opened Bytes
  import opened PathWalk
  import opened NetDisk

  // ---- Where an option leads ---------------------------------------------------------------

  /** The directory a session stands in. Without a path, as before a login, it is the parent of the root: the root. */
  ghost function Here(rows: Table, s: Session): Option<nat> {
    if s.path == "" then Some(ROOT) else Resolve(rows, ROOT, Split(Tail(s.path)))
  }

  predicate NoOption(option: string) { option == "" || option[0] == '\n' }

  predicate IsAbsolute(option: string) { option != "" && option[0] == '/' }

  /** The directory that an option of cd or ls names. One trailing slash does not count. */
  ghost function DirAt(rows: Table, s: Session, option: string): Option<nat> {
    if NoOption(option) then (if s.path == "" then None else Here(rows, s))
    else if IsAbsolute(option) then Resolve(rows, ROOT, Split(DropSlash(option[1..])))
    else match Here(rows, s)
      case None => None
      case Some(dir) => Resolve(rows, dir, Split(DropSlash(option)))
  }

  /** The directory and the name that an option of gets or puts names. */
  ghost function FileAt(rows: Table, s: Session, option: string): Option<(nat, string)> {
    if IsAbsolute(option) then FileFrom(rows, ROOT, Split(option[1..]))
    else match Here(rows, s)
      case None => None
      case Some(dir) => FileFrom(rows, dir, Split(option))
  }

  /** remove takes no option for the session's own path. */
  ghost function RemoveAt(rows: Table, s: Session, option: string): Option<(nat, string)> {
    if NoOption(option) then FileTarget(rows, s.path) else FileAt(rows, s, option)
  }

  /** Under the invariant every session stands somewhere, in a directory. */
  lemma StandsSomewhere(d: Disk, fd: int)
    requires Inv(d) && fd in d.sessions
    ensures var here := Here(d.rows, d.sessions[fd]);
            here.Some? && here.value in d.rows && d.rows[here.value].isDir
  {
    assert SessionOk(d.users, d.rows, d.sessions[fd]);
    if d.sessions[fd].path != "" {
      ResolveIsDirectory(d.rows, ROOT, Split(Tail(d.sessions[fd].path)));
    }
  }

  /** A text with a slash at its end has an empty last component. */
  lemma SlashAtEnd(rows: Table, s: string)
    requires NonEmptyNames(rows) && s != "" && s[|s| - 1] == '/'
    ensures Resolve(rows, ROOT, Split(s)) == None
  {
    var front := s[..|s| - 1];
    assert s == front + "/" + "";
    SplitConcat(front, "");
    EmptyComponentFails(rows, ROOT, Split(s), |Split(front)|);
  }

  lemma OwnPath(d: Disk, fd: int)
    requires Inv(d) && fd in d.sessions
    ensures var s := d.sessions[fd];
            && DirectoryAt(d.rows, s.path) == (if s.path == "" then None else Here(d.rows, s))
            && DropSlash(s.path) == s.path && (s.path == "" || s.path[0] == '/')
  {
    var s := d.sessions[fd];
    assert SessionOk(d.users, d.rows, s);
    NamesNotEmpty(d.users, d.rows, d.nextId);
    var inner := Tail(s.path);
    if inner != "" && inner[|inner| - 1] == '/' {
      SlashAtEnd(d.rows, inner);
    }
    if inner == "" {
      assert Split(inner)[0] == "";
      EmptyComponentFails(d.rows, ROOT, Split(inner), 0);
    }
  }

  /** The path that cd and ls walk leads where their option does. */
  lemma ShellLeads(d: Disk, fd: int, option: string)
    requires Inv(d) && fd in d.sessions
    ensures DirectoryAt(d.rows, ShellPath(d.sessions[fd], option)) == DirAt(d.rows, d.sessions[fd], option)
  {
    var s := d.sessions[fd];
    if NoOption(option) {
      OwnPath(d, fd);
    } else if !IsAbsolute(option) {
      if s.path == "" {
        assert Tail("/" + option) == option;
      } else {
        RelativeDirectory(d.rows, s.path, option);
      }
    }
  }

  /** The path that gets and puts walk leads where their option does. */
  lemma TransferLeads(rows: Table, s: Session, option: string)
    ensures FileTarget(rows, TransferPath(s, option)) == FileAt(rows, s, option)
  {
    if !IsAbsolute(option) {
      if s.path == "" {
        assert Tail("/" + option) == option;
      } else {
        RelativeFile(rows, s.path, option);
      }
    }
  }

  lemma RemoveLeads(rows: Table, s: Session, option: string)
    ensures FileTarget(rows, ShellPath(s, option)) == RemoveAt(rows, s, option)
  {
    if !NoOption(option) {
      TransferLeads(rows, s, option);
    }
  }

  /** A name without a slash is looked for where the session stands. */
  lemma PlainNameIsHere(rows: Table, s: Session, name: string)
    requires name != "" && '/' !in name && Here(rows, s).Some?
    ensures FileAt(rows, s, name) == Some((Here(rows, s).value, name))
  {
    FileHere(rows, Here(rows, s).value, name);
  }

  lemma DropsOne(rest: string)
    requires rest != "" && rest[|rest| - 1] != '/'
    ensures DropSlash(rest) == rest && DropSlash(rest + "/") == rest && DropSlash(rest + "/" + "/") == rest + "/"
  {
    var one := rest + "/";
    assert one[..|one| - 1] == rest;
    assert (one + "/")[..|one|] == one;
  }

  lemma SlashFails(rows: Table, from: nat, rest: string)
    requires NonEmptyNames(rows)
    ensures Resolve(rows, from, Split(rest + "/")) == None && FileFrom(rows, from, Split(rest + "/")) == None
  {
    SplitConcat(rest, "");
    assert rest + "/" + "" == rest + "/";
    EmptyComponentFails(rows, from, Split(rest + "/"), |Split(rest)|);
  }

  /** A slash at the end is nothing to cd and ls, two are too many, and a file's path has none. */
  lemma SlashesAtEnd(d: Disk, fd: int, x: string)
    requires Inv(d) && fd in d.sessions && !NoOption(x) && x[|x| - 1] != '/'
    ensures var rows, s := d.rows, d.sessions[fd];
            && DirAt(rows, s, x + "/") == DirAt(rows, s, x)
            && DirAt(rows, s, x + "/" + "/") == None
            && FileAt(rows, s, x + "/") == None
  {
    var rows, s := d.rows, d.sessions[fd];
    NamesNotEmpty(d.users, d.rows, d.nextId);
    if IsAbsolute(x) {
      var rest := x[1..];
      DropsOne(rest);
      SlashFails(rows, ROOT, rest);
      assert (x + "/")[1..] == rest + "/" && (x + "/" + "/")[1..] == rest + "/" + "/";
    } else {
      DropsOne(x);
      if Here(rows, s).Some? {
        SlashFails(rows, Here(rows, s).value, x);
      }
    }
  }

  // ---- gets, puts and remove ---------------------------------------------------------------

  /** The user has a file of that name in that directory. */
  ghost predicate Owns(rows: Table, owner: string, target: (nat, string)) {
    exists id :: IsFileOf(rows, id, owner, target.1, target.0)
  }

  /** The answer to gets: the name and the digest of a file of the session's user at that place. */
  ghost predicate Sends(d: Disk, fd: int, option: string, reply: Reply)
    requires fd in d.sessions
  {
    var s := d.sessions[fd];
    match FileAt(d.rows, s, option)
    case None => reply == NotAFile
    case Some(target) =>
      if Owns(d.rows, s.name, target)
      then reply.Sending? && reply.fileName == target.1 &&
           exists id :: IsFileOf(d.rows, id, s.name, target.1, target.0) && d.rows[id].md5 == reply.digest
      else reply == NoSuchFile
  }

  lemma GetsExactly(d: Disk, fd: int, option: string)
    requires fd in d.sessions
    ensures Sends(d, fd, option, Gets(d, fd, option))
  {
    TransferLeads(d.rows, d.sessions[fd], option);
    if FileAt(d.rows, d.sessions[fd], option).Some? {
      var (dir, name) := FileAt(d.rows, d.sessions[fd], option).value;
      var row := FindFile(d.rows, d.sessions[fd].name, name, dir);
      if row.Some? {
        assert IsFileOf(d.rows, row.value, d.sessions[fd].name, name, dir);
      }
    }
  }

  /** What an accepted puts is noted as, and that a refused one changes nothing. */
  ghost predicate Accepts(
    d: Disk, fd: int, option: string, digest: string, content: seq<byte>, after: Disk, reply: Reply)
    requires fd in d.sessions
  {
    var s := d.sessions[fd];
    match FileAt(d.rows, s, option)
    case None => reply == NotAFile && after == d
    case Some(target) =>
      if Owns(d.rows, s.name, target) then reply == FileExists && after == d
      else
        && reply == ReadyFor(target.1) && after == d.(uploads := after.uploads)
        && after.uploads == d.uploads[fd := Upload(s.name, target.1, target.0, digest, content, false, false, 0)]
  }

  lemma PutsExactly(d: Disk, fd: int, option: string, digest: string, content: seq<byte>)
    requires fd in d.sessions
    ensures var (after, reply) := PutsBegin(d, fd, option, digest, content);
            Accepts(d, fd, option, digest, content, after, reply)
  {
    TransferLeads(d.rows, d.sessions[fd], option);
  }

  /** For a plain name it comes to whether the user has such a file where the session stands. */
  lemma PlainNameExactly(d: Disk, fd: int, name: string, digest: string, content: seq<byte>)
    requires Inv(d) && fd in d.sessions && name != "" && '/' !in name
    ensures var s := d.sessions[fd];
            var dir, (after, reply) := Here(d.rows, s).value, PutsBegin(d, fd, name, digest, content);
            && (Gets(d, fd, name).Sending? <==> exists id :: IsFileOf(d.rows, id, s.name, name, dir))
            && (reply == ReadyFor(name) <==> forall id :: !IsFileOf(d.rows, id, s.name, name, dir))
            && (reply == ReadyFor(name) ==>
                  fd in after.uploads && after.uploads[fd].owner == s.name
                  && after.uploads[fd].parent == dir && after.uploads[fd].fileName == name)
  {
    StandsSomewhere(d, fd);
    PlainNameIsHere(d.rows, d.sessions[fd], name);
    GetsExactly(d, fd, name);
    PutsExactly(d, fd, name, digest, content);
  }

  /** remove deletes one file of the session's user at that place, and otherwise nothing happens. */
  lemma RemoveExactly(d: Disk, fd: int, option: string)
    requires Idle(d, fd)
    ensures var s, (begun, reply) := d.sessions[fd], RemoveBegin(d, fd, option);
            match RemoveAt(d.rows, s, option)
            case None => reply == NotAFile && begun == d
            case Some((dir, name)) =>
              if Owns(d.rows, s.name, (dir, name))
              then
                && reply == Removed && fd in begun.removing
                && IsFileOf(d.rows, begun.removing[fd], s.name, name, dir)
                && RemoveEnd(begun, fd) == d.(rows := d.rows - {begun.removing[fd]})
              else reply == NoSuchFile && begun == d
  {
    RemoveLeads(d.rows, d.sessions[fd], option);
    var begun := RemoveBegin(d, fd, option).0;
    if fd in begun.removing {
      assert begun.removing - {fd} == d.removing;
    }
  }

  // ---- cd ----------------------------------------------------------------------------------

  /** What pwd shows after a cd. */
  function PathAfter(s: Session, option: string): string {
    if NoOption(option) then s.path
    else if IsAbsolute(option) then DropSlash(option)
    else s.path + "/" + DropSlash(option)
  }

  /**
   cd goes there when the option leads somewhere: then the session stands in that directory, under its old
   name, and nobody else's session and nothing else has changed. Otherwise nothing has changed at all.
   */
  ghost predicate Moves(d: Disk, fd: int, option: string, after: Disk, reply: Reply)
    requires fd in d.sessions
  {
    var s, dest := d.sessions[fd], DirAt(d.rows, d.sessions[fd], option);
    && (reply == WentTo(option) <==> dest.Some?)
    && (dest.None? ==> reply == InvalidPath && after == d)
    && (dest.Some? ==>
          && after == d.(sessions := after.sessions) && after.sessions.Keys == d.sessions.Keys
          && (forall k :: k in d.sessions && k != fd ==> after.sessions[k] == d.sessions[k])
          && after.sessions[fd].name == s.name && after.sessions[fd].path == PathAfter(s, option)
          && IsAbsolute(after.sessions[fd].path) && Here(after.rows, after.sessions[fd]) == dest)
  }

  lemma CdExactly(d: Disk, fd: int, option: string)
    requires Inv(d) && fd in d.sessions
    ensures var (after, reply) := Cd(d, fd, option);
            Moves(d, fd, option, after, reply)
  {
    ShellLeads(d, fd, option);
    if DirAt(d.rows, d.sessions[fd], option).Some? {
      NewPath(d, fd, option);
    }
  }

  lemma CdMoves(d: Disk, fd: int, option: string)
    requires fd in d.sessions
    ensures Inv(d) ==> Moves(d, fd, option, Cd(d, fd, option).0, Cd(d, fd, option).1)
  {
    if Inv(d) {
      CdExactly(d, fd, option);
    }
  }

  lemma NewPath(d: Disk, fd: int, option: string)
    requires Inv(d) && fd in d.sessions && DirAt(d.rows, d.sessions[fd], option).Some?
    ensures var path := DropSlash(ShellPath(d.sessions[fd], option));
            && path == PathAfter(d.sessions[fd], option) && IsAbsolute(path)
            && Resolve(d.rows, ROOT, Split(Tail(path))) == DirAt(d.rows, d.sessions[fd], option)
  {
    var s, q := d.sessions[fd], ShellPath(d.sessions[fd], option);
    OwnPath(d, fd);
    ShellLeads(d, fd, option);
    NamesNotEmpty(d.users, d.rows, d.nextId);
    CanonicalPath(d.rows, q);
    if !NoOption(option) && !IsAbsolute(option) {
      SlashKept(s.path, option);
    }
  }

  lemma SlashKept(path: string, option: string)
    requires option != ""
    ensures DropSlash(path + "/" + option) == path + "/" + DropSlash(option)
  {
  }

  /** After `cd x`, what y names from there is what x/y named before. */
  lemma CdComposes(d: Disk, fd: int, x: string, y: string)
    requires Inv(d) && fd in d.sessions && DirAt(d.rows, d.sessions[fd], x).Some? && !NoOption(x) && !IsAbsolute(y)
    ensures var s, there, xy := d.sessions[fd], Cd(d, fd, x).0.sessions[fd], DropSlash(x) + "/" + y;
            && FileAt(d.rows, there, y) == FileAt(d.rows, s, xy)
            && (!NoOption(y) ==> DirAt(d.rows, there, y) == DirAt(d.rows, s, xy))
            && (NoOption(y) ==> DirAt(d.rows, there, y) == DirAt(d.rows, s, x))
  {
    var s, after, xy := d.sessions[fd], Cd(d, fd, x).0, DropSlash(x) + "/" + y;
    var there := after.sessions[fd];
    CdExactly(d, fd, x);
    CdKeepsInv(d, fd, x);
    PathsCompose(d, fd, x, y);
    TransferLeads(d.rows, there, y);
    TransferLeads(d.rows, s, xy);
    if !NoOption(y) {
      ShellLeads(after, fd, y);
      ShellLeads(d, fd, xy);
    }
  }

  lemma PathsCompose(d: Disk, fd: int, x: string, y: string)
    requires Inv(d) && fd in d.sessions && DirAt(d.rows, d.sessions[fd], x).Some? && !NoOption(x) && !IsAbsolute(y)
    ensures var s, xy := d.sessions[fd], DropSlash(x) + "/" + y;
            var there := s.(path := PathAfter(s, x));
            && there.path != "" && !NoOption(xy)
            && TransferPath(there, y) == TransferPath(s, xy)
            && (!NoOption(y) ==> ShellPath(there, y) == ShellPath(s, xy))
  {
    var s, xy := d.sessions[fd], DropSlash(x) + "/" + y;
    NotJustASlash(d, fd, x);
    if !IsAbsolute(x) {
      assert (s.path + "/" + DropSlash(x)) + "/" + y == s.path + "/" + xy;
    }
  }

  /** "/" alone leads nowhere. */
  lemma NotJustASlash(d: Disk, fd: int, x: string)
    requires Inv(d) && fd in d.sessions && DirAt(d.rows, d.sessions[fd], x).Some? && !NoOption(x)
    ensures DropSlash(x) != "" && DropSlash(x)[0] == x[0]
  {
    if x == "/" {
      NamesNotEmpty(d.users, d.rows, d.nextId);
      assert DropSlash(x[1..]) == "" && Split("")[0] == "";
      EmptyComponentFails(d.rows, ROOT, Split(""), 0);
    }
  }

  /** So a command with y after `cd x` does what it would have done with x/y, and ls alone shows what ls of x showed. */
  lemma CdThenCommand(d: Disk, fd: int, x: string, y: string, digest: string, content: seq<byte>)
    requires Inv(d) && fd in d.sessions && DirAt(d.rows, d.sessions[fd], x).Some? && !NoOption(x) && !IsAbsolute(y)
    ensures var after, xy := Cd(d, fd, x).0, DropSlash(x) + "/" + y;
            && Gets(after, fd, y) == Gets(d, fd, xy)
            && PutsBegin(after, fd, y, digest, content).0.uploads == PutsBegin(d, fd, xy, digest, content).0.uploads
            && PutsBegin(after, fd, y, digest, content).1 == PutsBegin(d, fd, xy, digest, content).1
            && Ls(after, fd, y) == Ls(d, fd, if NoOption(y) then x else xy)
            && (Cd(d, fd, xy).1.WentTo? && !NoOption(y) ==> Cd(after, fd, y).0 == Cd(d, fd, xy).0)
  {
    var xy := DropSlash(x) + "/" + y;
    var after := AfterCd(d, fd, x);
    PathsCompose(d, fd, x, y);
    SamePath(d, after, fd, xy, y, digest, content);
    ListsAfterCd(d, fd, x, y);
    if !NoOption(y) {
      SameMove(d, after, fd, xy, y);
    }
  }

  lemma AfterCd(d: Disk, fd: int, x: string) returns (after: Disk)
    requires Inv(d) && fd in d.sessions && DirAt(d.rows, d.sessions[fd], x).Some?
    ensures after == Cd(d, fd, x).0
    ensures after == d.(sessions := d.sessions[fd := d.sessions[fd].(path := PathAfter(d.sessions[fd], x))])
  {
    after := Cd(d, fd, x).0;
    ShellLeads(d, fd, x);
    NewPath(d, fd, x);
  }

  lemma SamePath(d: Disk, after: Disk, fd: int, xy: string, y: string, digest: string, content: seq<byte>)
    requires fd in d.sessions && fd in after.sessions && after == d.(sessions := after.sessions)
    requires after.sessions[fd].name == d.sessions[fd].name
    requires TransferPath(after.sessions[fd], y) == TransferPath(d.sessions[fd], xy)
    ensures Gets(after, fd, y) == Gets(d, fd, xy)
    ensures PutsBegin(after, fd, y, digest, content).0.uploads == PutsBegin(d, fd, xy, digest, content).0.uploads
    ensures PutsBegin(after, fd, y, digest, content).1 == PutsBegin(d, fd, xy, digest, content).1
  {
  }

  lemma SameMove(d: Disk, after: Disk, fd: int, xy: string, y: string)
    requires fd in d.sessions && fd in after.sessions && after == d.(sessions := d.sessions[fd := after.sessions[fd]])
    requires after.sessions[fd].name == d.sessions[fd].name
    requires ShellPath(after.sessions[fd], y) == ShellPath(d.sessions[fd], xy)
    ensures Cd(d, fd, xy).1.WentTo? ==> Cd(after, fd, y).0 == Cd(d, fd, xy).0
  {
  }

  lemma ListsAfterCd(d: Disk, fd: int, x: string, y: string)
    requires Inv(d) && fd in d.sessions && DirAt(d.rows, d.sessions[fd], x).Some? && !NoOption(x) && !IsAbsolute(y)
    ensures Ls(Cd(d, fd, x).0, fd, y) == Ls(d, fd, if NoOption(y) then x else DropSlash(x) + "/" + y)
  {
    var after := AfterCd(d, fd, x);
    CdKeepsInv(d, fd, x);
    CdComposes(d, fd, x, y);
    ShellLeads(after, fd, y);
    ShellLeads(d, fd, if NoOption(y) then x else DropSlash(x) + "/" + y);
  }

  // ---- ls ----------------------------------------------------------------------------------

  /** All rows below the directory that the option leads to, of whatever owner and kind, and no others. */
  ghost predicate Lists(d: Disk, fd: int, option: string, reply: Reply)
    requires fd in d.sessions
  {
    match DirAt(d.rows, d.sessions[fd], option)
    case None => reply == InvalidPath
    case Some(dir) =>
      reply.Listing? && forall id :: id in reply.ids <==> id in d.rows && d.rows[id].parent == dir
  }

  lemma LsExactly(d: Disk, fd: int, option: string)
    requires Inv(d) && fd in d.sessions
    ensures Lists(d, fd, option, Ls(d, fd, option))
  {
    ShellLeads(d, fd, option);
  }

  lemma LsLists(d: Disk, fd: int, option: string)
    requires fd in d.sessions
    ensures Inv(d) ==> Lists(d, fd, option, Ls(d, fd, option))
  {
    if Inv(d) {
      LsExactly(d, fd, option);
    }
  }

  /**
   The three commands agree on a name below a listed directory: a directory of that name is listed exactly when
   cd goes to one there, and a file of the session's user exactly when gets sends it; both by the path that pwd
   shows after cd to the listed directory, a slash, and the name.
   */
  lemma ListedIsReachedExactly(d: Disk, fd: int, option: string, name: string)
    requires Inv(d) && fd in d.sessions && Ls(d, fd, option).Listing? && name != "" && '/' !in name
    ensures DirAt(d.rows, d.sessions[fd], option).Some?
    ensures var s, ids := d.sessions[fd], Ls(d, fd, option).ids;
            var path := PathAfter(s, option) + "/" + name;
            var (after, reply) := Cd(d, fd, path);
            && (reply == WentTo(path) <==> exists id :: id in ids && d.rows[id].isDir && d.rows[id].fileName == name)
            && (reply == WentTo(path) ==>
                  var there := Here(after.rows, after.sessions[fd]);
                  && there.Some? && there.value in ids
                  && IsDirNamed(d.rows, there.value, name, DirAt(d.rows, s, option).value))
            && (Gets(d, fd, path).Sending? <==>
                  exists id :: id in ids && !d.rows[id].isDir
                               && d.rows[id].owner == s.name && d.rows[id].fileName == name)
  {
    var s := d.sessions[fd];
    var path := PathAfter(s, option) + "/" + name;
    LsExactly(d, fd, option);
    var dir, ids := DirAt(d.rows, s, option).value, Ls(d, fd, option).ids;
    BelowPath(d, fd, option, name);
    CdExactly(d, fd, path);
    GetsExactly(d, fd, path);
    forall id
      ensures IsDirNamed(d.rows, id, name, dir) <==> id in ids && d.rows[id].isDir && d.rows[id].fileName == name
    {
    }
    forall id
      ensures IsFileOf(d.rows, id, s.name, name, dir) <==>
              id in ids && !d.rows[id].isDir && d.rows[id].owner == s.name && d.rows[id].fileName == name
    {
    }
  }

  lemma BelowPath(d: Disk, fd: int, option: string, name: string)
    requires Inv(d) && fd in d.sessions && DirAt(d.rows, d.sessions[fd], option).Some? && name != "" && '/' !in name
    ensures var s := d.sessions[fd];
            var path, dir := PathAfter(s, option) + "/" + name, DirAt(d.rows, s, option).value;
            && DirAt(d.rows, s, path) == FindDir(d.rows, name, dir)
            && FileAt(d.rows, s, path) == Some((dir, name))
  {
    var s := d.sessions[fd];
    var base, dir := PathAfter(s, option), DirAt(d.rows, s, option).value;
    NewPath(d, fd, option);
    assert (base + "/" + name)[1..] == Tail(base) + "/" + name;
    RelativeFile(d.rows, base, name);
    FileHere(d.rows, dir, name);
    RelativeDirectory(d.rows, base, name);
    assert DropSlash(name) == name;
    SplitOne(name);
    ResolveOne(d.rows, dir, name);
  }
}
