/**
 The command layer of the network disk as a state machine. The two tables, the store of file
 contents shared by all users, the sessions, and what the workers hold between two critical
 sections form one value. A command that takes the database lock once is one step. The others are
 split where other clients' commands run in between: a registration into its SELECT and its INSERTs,
 a removal into its SELECT and its DELETE, and puts into its SELECT, the opening of the store's
 file, each received piece, and the INSERT at its end. The upload that creates the store's file writes
 at its own offset, since it opens the file without O_APPEND; the others append.
 */
module NetDisk {
  import opened Options
  import opened Bytes
  import opened PathWalk

  datatype User = User(salt: string, code: string, path: string)
  datatype Session = Session(name: string, path: string)

  /**
   An accepted puts whose row is not inserted yet. Once the store's file is opened, `pos` bytes of
   the client's file are accounted for; `creator` says that this upload created the file.
   */
  datatype Upload = Upload(
    owner: string, fileName: string, parent: nat, digest: string, content: seq<byte>,
    isOpen: bool, creator: bool, pos: nat)

  /** A registration whose name was found to be unused. */
  datatype Registration = Registration(name: string, salt: string, code: string)

  datatype Disk = Disk(
    users: map<string, User>,
    rows: Table,
    nextId: nat,
    store: map<string, seq<byte>>,
    sessions: map<int, Session>,
    uploads: map<int, Upload>,
    registering: map<int, Registration>,
    removing: map<int, nat>)

  /** The digest and the password hash, of which nothing is known here. */
  datatype Hashes = Hashes(md5: seq<byte> -> string, crypt: (string, string) -> string)

  ghost predicate Injective(md5: seq<byte> -> string) {
    forall a, b :: md5(a) == md5(b) ==> a == b
  }

  datatype Reply =
    | InvalidPath | WentTo(option: string) | Listing(ids: set<nat>) | WorkingDirectory(path: string)
    | NotAFile | NoSuchFile | Removed | FileExists | ReadyFor(fileName: string)
    | Sending(fileName: string, digest: string)
    | Success | LoginFailure | RegistFailure

  // ---- The commands ----------------------------------------------------------------------

  /** cd, ls and remove: no option means the session's own path. */
  function ShellPath(s: Session, option: string): string {
    if option == "" || option[0] == '\n' then s.path
    else if option[0] != '/' then s.path + "/" + option
    else option
  }

  /** gets and puts: an empty option still gets a slash. */
  function TransferPath(s: Session, option: string): string {
    if option == "" || option[0] != '/' then s.path + "/" + option else option
  }

  ghost function Cd(d: Disk, fd: int, option: string): (Disk, Reply)
    requires fd in d.sessions
  {
    var path := ShellPath(d.sessions[fd], option);
    if DirectoryAt(d.rows, path).None? then (d, InvalidPath)
    else (d.(sessions := d.sessions[fd := d.sessions[fd].(path := DropSlash(path))]), WentTo(option))
  }

  ghost function Ls(d: Disk, fd: int, option: string): Reply
    requires fd in d.sessions
  {
    match DirectoryAt(d.rows, ShellPath(d.sessions[fd], option))
    case None => InvalidPath
    case Some(dir) => Listing(set id | id in d.rows && d.rows[id].parent == dir)
  }

  /** The session's own file that a path leads to. */
  ghost function Found(d: Disk, fd: int, path: string): Option<nat>
    requires fd in d.sessions
  {
    match FileTarget(d.rows, path)
    case None => None
    case Some((dir, name)) => FindFile(d.rows, d.sessions[fd].name, name, dir)
  }

  /** The SELECT of remove: the row that will be deleted. */
  ghost function RemoveBegin(d: Disk, fd: int, option: string): (Disk, Reply)
    requires fd in d.sessions
  {
    var path := ShellPath(d.sessions[fd], option);
    if FileTarget(d.rows, path).None? then (d, NotAFile)
    else match Found(d, fd, path)
      case None => (d, NoSuchFile)
      case Some(id) => (d.(removing := d.removing[fd := id]), Removed)
  }

  /** Its DELETE, by dir_id. */
  function RemoveEnd(d: Disk, fd: int): Disk
    requires fd in d.removing
  {
    d.(rows := d.rows - {d.removing[fd]}, removing := d.removing - {fd})
  }

  ghost function Login(h: Hashes, d: Disk, fd: int, name: string, code: string): (Disk, Reply)
    requires fd in d.sessions
  {
    if name in d.users && h.crypt(code, d.users[name].salt) == d.users[name].code
    then (d.(sessions := d.sessions[fd := Session(name, d.users[name].path)]), Success)
    else (d, LoginFailure)
  }

  function HomePath(name: string): string { "/root/" + name }

  /** The SELECT of a registration. */
  function RegistBegin(d: Disk, fd: int, name: string, salt: string, code: string): (Disk, Reply) {
    if name in d.users then (d, RegistFailure)
    else (d.(registering := d.registering[fd := Registration(name, salt, code)]), Success)
  }

  /**
   Its two INSERTs under one lock, and the session. The name is the primary key of USER, so the first
   INSERT fails when somebody else has registered it meanwhile; that failure is not looked at, and
   the second one inserts a directory all the same.
   */
  function RegistEnd(h: Hashes, d: Disk, fd: int): Disk
    requires fd in d.registering
  {
    var Registration(name, salt, code) := d.registering[fd];
    d.(users := if name in d.users then d.users
                else d.users[name := User(salt, h.crypt(code, salt), HomePath(name))],
       rows := d.rows[d.nextId := Row(name, name, true, "", ROOT)],
       nextId := d.nextId + 1,
       sessions := d.sessions[fd := Session(name, HomePath(name))],
       registering := d.registering - {fd})
  }

  ghost function Gets(d: Disk, fd: int, option: string): Reply
    requires fd in d.sessions
  {
    var path := TransferPath(d.sessions[fd], option);
    match FileTarget(d.rows, path)
    case None => NotAFile
    case Some((dir, name)) =>
      match Found(d, fd, path)
      case None => NoSuchFile
      case Some(id) => Sending(name, d.rows[id].md5)
  }

  /** The SELECT of puts. */
  ghost function PutsBegin(d: Disk, fd: int, option: string, digest: string, content: seq<byte>): (Disk, Reply)
    requires fd in d.sessions
  {
    var path := TransferPath(d.sessions[fd], option);
    match FileTarget(d.rows, path)
    case None => (d, NotAFile)
    case Some((dir, name)) =>
      if Found(d, fd, path).Some? then (d, FileExists)
      else
        (d.(uploads := d.uploads[fd := Upload(d.sessions[fd].name, name, dir, digest, content, false, false, 0)]),
         ReadyFor(name))
  }

  /** The store after recv_file has opened the digest-named file, creating it when missing. */
  function Opened(store: map<string, seq<byte>>, digest: string): map<string, seq<byte>> {
    if digest in store then store else store[digest := []]
  }

  /**
   recv_file opens the file. When it is missing it is created, and the offset is 0; otherwise it is opened
   for appending, and its size is the offset.
   */
  function PutsOpen(d: Disk, fd: int): Disk
    requires fd in d.uploads
  {
    var u, store := d.uploads[fd], Opened(d.store, d.uploads[fd].digest);
    d.(store := store,
       uploads := d.uploads[fd := u.(isOpen := true, creator := u.digest !in d.store, pos := |store[u.digest]|)])
  }

  /** The buffer that recv_file hands to recv. */
  const RECV_SIZE: nat := 1000

  /** The offset of an open upload lies within the store's file, which never shrinks. */
  predicate Receiving(d: Disk, fd: int, n: nat) {
    && fd in d.uploads && d.uploads[fd].isOpen && d.uploads[fd].digest in d.store
    && d.uploads[fd].pos <= |d.store[d.uploads[fd].digest]|
    && 1 <= n <= RECV_SIZE && d.uploads[fd].pos + n <= |d.uploads[fd].content|
  }

  /** write at an offset: what is there is replaced. */
  function Overwrite(file: seq<byte>, at: nat, piece: seq<byte>): seq<byte>
    requires at <= |file|
  {
    file[..at] + piece + (if at + |piece| <= |file| then file[at + |piece|..] else [])
  }

  /** The store's file after an upload has written a piece. */
  function Written(file: seq<byte>, u: Upload, piece: seq<byte>): seq<byte>
    requires u.pos <= |file|
  {
    if u.creator then Overwrite(file, u.pos, piece) else file + piece
  }

  /** At the end of a file, writing at an offset is appending. */
  lemma AtTheEnd(file: seq<byte>, u: Upload, piece: seq<byte>)
    requires u.pos == |file|
    ensures Written(file, u, piece) == file + piece
  {
  }

  /** One recv of n bytes, written to the digest-named file. */
  function PutsChunk(d: Disk, fd: int, n: nat): Disk
    requires Receiving(d, fd, n)
  {
    var u := d.uploads[fd];
    d.(store := d.store[u.digest := Written(d.store[u.digest], u, u.content[u.pos..u.pos + n])],
       uploads := d.uploads[fd := u.(pos := u.pos + n)])
  }

  /**
   The row is inserted whether or not all bytes arrived. The database refuses it when the owner
   is no user, because FILE.name references USER.name; that failure is not looked at.
   */
  function PutsEnd(d: Disk, fd: int): Disk
    requires fd in d.uploads
  {
    var u := d.uploads[fd];
    if u.owner in d.users
    then d.(rows := d.rows[d.nextId := Row(u.owner, u.fileName, false, u.digest, u.parent)],
            nextId := d.nextId + 1,
            uploads := d.uploads - {fd})
    else d.(uploads := d.uploads - {fd})
  }

  // ---- Steps and runs --------------------------------------------------------------------

  datatype Action =
    | Connect(fd: int)
    | Disconnect(fd: int)
    | DoCd(fd: int, option: string)
    | DoRemove(fd: int, option: string)
    | EndRemove(fd: int)
    | DoLogin(fd: int, name: string, code: string)
    | DoRegist(fd: int, name: string, salt: string, code: string)
    | EndRegist(fd: int)
    | DoPuts(fd: int, option: string, digest: string, content: seq<byte>)
    | OpenPuts(fd: int)
    | Chunk(fd: int, n: nat)
    | EndPuts(fd: int)

  /** Connected, and with no command under way. */
  predicate Idle(d: Disk, fd: int) {
    fd in d.sessions && fd !in d.uploads && fd !in d.registering && fd !in d.removing
  }

  /**
   When the server can take the step: one command per connection at a time, names that are not
   empty and hold no slash, and clients that announce the digest of the file they send.
   */
  predicate Allowed(h: Hashes, d: Disk, a: Action) {
    match a
    case Connect(fd) => fd !in d.sessions
    case Disconnect(fd) => Idle(d, fd)
    case DoCd(fd, option) => Idle(d, fd)
    case DoRemove(fd, option) => Idle(d, fd)
    case EndRemove(fd) => fd in d.removing
    case DoLogin(fd, name, code) => Idle(d, fd)
    case DoRegist(fd, name, salt, code) => Idle(d, fd) && name != "" && '/' !in name
    case EndRegist(fd) => fd in d.registering
    case DoPuts(fd, option, digest, content) => Idle(d, fd) && digest == h.md5(content)
    case OpenPuts(fd) => fd in d.uploads && !d.uploads[fd].isOpen
    case Chunk(fd, n) => Receiving(d, fd, n)
    case EndPuts(fd) => fd in d.uploads && d.uploads[fd].isOpen
  }

  ghost function Apply(h: Hashes, d: Disk, a: Action): Disk
    requires Allowed(h, d, a)
  {
    match a
    case Connect(fd) => d.(sessions := d.sessions[fd := Session("", "")])
    case Disconnect(fd) => d.(sessions := d.sessions - {fd})
    case DoCd(fd, option) => Cd(d, fd, option).0
    case DoRemove(fd, option) => RemoveBegin(d, fd, option).0
    case EndRemove(fd) => RemoveEnd(d, fd)
    case DoLogin(fd, name, code) => Login(h, d, fd, name, code).0
    case DoRegist(fd, name, salt, code) => RegistBegin(d, fd, name, salt, code).0
    case EndRegist(fd) => RegistEnd(h, d, fd)
    case DoPuts(fd, option, digest, content) => PutsBegin(d, fd, option, digest, content).0
    case OpenPuts(fd) => PutsOpen(d, fd)
    case Chunk(fd, n) => PutsChunk(d, fd, n)
    case EndPuts(fd) => PutsEnd(d, fd)
  }

  ghost predicate CanRun(h: Hashes, d: Disk, run: seq<Action>)
    decreases |run|
  {
    run == [] || (Allowed(h, d, run[0]) && CanRun(h, Apply(h, d, run[0]), run[1..]))
  }

  ghost function Run(h: Hashes, d: Disk, run: seq<Action>): Disk
    requires CanRun(h, d, run)
    decreases |run|
  {
    if run == [] then d else Run(h, Apply(h, d, run[0]), run[1..])
  }

  lemma {:induction false} RunConcat(h: Hashes, d: Disk, a: seq<Action>, b: seq<Action>)
    requires CanRun(h, d, a) && CanRun(h, Run(h, d, a), b)
    ensures CanRun(h, d, a + b) && Run(h, d, a + b) == Run(h, Run(h, d, a), b)
    decreases |a|
  {
    if a == [] {
      assert a + b == b;
    } else {
      assert (a + b)[0] == a[0] && (a + b)[1..] == a[1..] + b;
      RunConcat(h, Apply(h, d, a[0]), a[1..], b);
    }
  }

  lemma RunOne(h: Hashes, d: Disk, a: Action)
    requires Allowed(h, d, a)
    ensures CanRun(h, d, [a]) && Run(h, d, [a]) == Apply(h, d, a)
  {
    assert [a][1..] == [];
  }

  lemma RunFirst(h: Hashes, d: Disk, a: Action, rest: seq<Action>)
    requires Allowed(h, d, a) && CanRun(h, Apply(h, d, a), rest)
    ensures CanRun(h, d, [a] + rest) && Run(h, d, [a] + rest) == Run(h, Apply(h, d, a), rest)
  {
    assert ([a] + rest)[0] == a && ([a] + rest)[1..] == rest;
  }

  /** The steps that change nothing but sessions. */
  lemma SessionSteps(h: Hashes, d: Disk, a: Action)
    requires Allowed(h, d, a) && (a.Connect? || a.Disconnect? || a.DoCd? || a.DoLogin?)
    ensures Apply(h, d, a) == d.(sessions := Apply(h, d, a).sessions)
  {
  }

  /** The steps that only note what a SELECT has found. */
  lemma NotingSteps(h: Hashes, d: Disk, a: Action)
    requires Allowed(h, d, a)
    ensures a.DoRemove? ==> Apply(h, d, a) == d.(removing := Apply(h, d, a).removing)
    ensures a.DoRegist? ==> Apply(h, d, a) == d.(registering := Apply(h, d, a).registering)
    ensures a.DoPuts? ==> Apply(h, d, a) == d.(uploads := Apply(h, d, a).uploads)
  {
  }

  /** Only the steps of puts touch uploads and store. */
  lemma OtherUploads(h: Hashes, d: Disk, a: Action)
    requires Allowed(h, d, a) && !a.DoPuts? && !a.OpenPuts? && !a.Chunk? && !a.EndPuts?
    ensures Apply(h, d, a).uploads == d.uploads && Apply(h, d, a).store == d.store
  {
    if a.Connect? || a.Disconnect? || a.DoCd? || a.DoLogin? {
      SessionSteps(h, d, a);
    } else {
      NotingSteps(h, d, a);
    }
  }

  /** Only the ends of registrations, removals and puts touch the tables. */
  lemma OtherTables(h: Hashes, d: Disk, a: Action)
    requires Allowed(h, d, a) && !a.EndRegist? && !a.EndRemove? && !a.EndPuts?
    ensures Apply(h, d, a).rows == d.rows && Apply(h, d, a).nextId == d.nextId && Apply(h, d, a).users == d.users
  {
    if a.Connect? || a.Disconnect? || a.DoCd? || a.DoLogin? {
      SessionSteps(h, d, a);
    } else {
      NotingSteps(h, d, a);
    }
  }

  /** Only removals touch what is about to be deleted. */
  lemma OtherRemovals(h: Hashes, d: Disk, a: Action)
    requires Allowed(h, d, a) && !a.DoRemove? && !a.EndRemove?
    ensures Apply(h, d, a).removing == d.removing
  {
    if a.Connect? || a.Disconnect? || a.DoCd? || a.DoLogin? {
      SessionSteps(h, d, a);
    } else {
      NotingSteps(h, d, a);
    }
  }

  // ---- What holds in every run ------------------------------------------------------------

  ghost predicate Resolves(rows: Table, path: string) {
    path != "" && path[0] == '/' && Resolve(rows, ROOT, Split(Tail(path))).Some?
  }

  /** A row's owner is a user, its parent an older directory (the root is its own parent). */
  ghost predicate RowOk(users: map<string, User>, rows: Table, nextId: nat, id: nat) {
    id in rows ==>
      && id < nextId && rows[id].owner in users && rows[id].fileName != "" && '/' !in rows[id].fileName
      && rows[id].parent in rows && rows[rows[id].parent].isDir
      && (id != ROOT ==> rows[id].parent < id)
      && (rows[id].isDir && rows[id].parent == ROOT ==> rows[id].fileName in users)
  }

  /** Directories may have twins, but only such that have no directory below them. */
  ghost predicate TreeInv(users: map<string, User>, rows: Table, nextId: nat) {
    && IsDirNamed(rows, ROOT, "root", ROOT)
    && (forall id {:trigger RowOk(users, rows, nextId, id)} :: RowOk(users, rows, nextId, id))
    && TwinsAreLeaves(rows)
  }

  /** Every user's path resolves, and there is a directory of that name below the root. */
  ghost predicate HomesInv(users: map<string, User>, rows: Table) {
    forall name :: name in users ==> Resolves(rows, users[name].path) && FindDir(rows, name, ROOT).Some?
  }

  ghost predicate SessionOk(users: map<string, User>, rows: Table, s: Session) {
    && (s.path != "" ==> Resolves(rows, s.path))
    && (s.name != "" ==> s.name in users && s.path != "")
  }

  ghost predicate SessionsInv(d: Disk) {
    forall fd :: fd in d.sessions ==> SessionOk(d.users, d.rows, d.sessions[fd])
  }

  /** A directory row is never removed, so the directory of a pending upload is there at its end. */
  ghost predicate UploadOpenable(d: Disk, u: Upload) {
    && u.parent in d.rows && d.rows[u.parent].isDir && u.fileName != "" && '/' !in u.fileName
    && (u.isOpen ==> u.digest in d.store && u.pos <= |d.store[u.digest]|)
  }

  ghost predicate UploadsInv(d: Disk) {
    forall fd :: fd in d.uploads ==> UploadOpenable(d, d.uploads[fd])
  }

  /** A file of the store is created once. */
  ghost predicate CreatorsInv(d: Disk) {
    forall a, b :: a in d.uploads && b in d.uploads && a != b && d.uploads[a].creator && d.uploads[b].creator
                   && d.uploads[a].isOpen && d.uploads[b].isOpen ==>
      d.uploads[a].digest != d.uploads[b].digest
  }

  /** gets always finds the digest-named file that a row promises. */
  ghost predicate BackedInv(d: Disk) {
    forall id :: id in d.rows && !d.rows[id].isDir ==> d.rows[id].md5 in d.store
  }

  /** Below a directory that may get a twin there is no directory. */
  ghost predicate RegistrationOk(rows: Table, r: Registration) {
    && r.name != "" && '/' !in r.name
    && forall id, child :: IsDirNamed(rows, id, r.name, ROOT) ==> !ChildDir(rows, child, id)
  }

  ghost predicate RegistrationsInv(d: Disk) {
    forall fd :: fd in d.registering ==> RegistrationOk(d.rows, d.registering[fd])
  }

  /** What is about to be deleted is a file, and no row to come. */
  ghost predicate RemovalsInv(d: Disk) {
    forall fd :: fd in d.removing ==>
      d.removing[fd] < d.nextId && (d.removing[fd] in d.rows ==> !d.rows[d.removing[fd]].isDir)
  }

  ghost predicate ConnectedInv(d: Disk) {
    d.uploads.Keys <= d.sessions.Keys && d.registering.Keys <= d.sessions.Keys && d.removing.Keys <= d.sessions.Keys
  }

  ghost predicate Inv(d: Disk) {
    && TreeInv(d.users, d.rows, d.nextId)
    && HomesInv(d.users, d.rows)
    && SessionsInv(d)
    && UploadsInv(d)
    && CreatorsInv(d)
    && BackedInv(d)
    && RegistrationsInv(d)
    && RemovalsInv(d)
    && ConnectedInv(d)
  }

  lemma ResolvesStays(rows: Table, after: Table, path: string)
    requires DirsKept(rows, after) && TwinsAreLeaves(after) && Resolves(rows, path)
    ensures Resolves(after, path)
  {
    ResolveSurvives(rows, after, ROOT, Split(Tail(path)));
  }

  lemma HomesStay(users: map<string, User>, rows: Table, after: Table)
    requires HomesInv(users, rows) && DirsKept(rows, after) && TwinsAreLeaves(after)
    ensures HomesInv(users, after)
  {
    forall name | name in users ensures Resolves(after, users[name].path) && FindDir(after, name, ROOT).Some? {
      ResolvesStays(rows, after, users[name].path);
      assert IsDirNamed(after, FindDir(rows, name, ROOT).value, name, ROOT);
    }
  }

  lemma SessionStays(users: map<string, User>, more: map<string, User>, rows: Table, after: Table, s: Session)
    requires SessionOk(users, rows, s) && users.Keys <= more.Keys && DirsKept(rows, after) && TwinsAreLeaves(after)
    ensures SessionOk(more, after, s)
  {
    if s.path != "" {
      ResolvesStays(rows, after, s.path);
    }
  }

  lemma NamesNotEmpty(users: map<string, User>, rows: Table, nextId: nat)
    requires TreeInv(users, rows, nextId)
    ensures NonEmptyNames(rows)
  {
    forall id | id in rows ensures rows[id].fileName != "" {
      assert RowOk(users, rows, nextId, id);
    }
  }

  /** The root has itself for a child, so it has no twin. */
  lemma RootIsAlone(rows: Table)
    requires IsDirNamed(rows, ROOT, "root", ROOT) && TwinsAreLeaves(rows)
    ensures FindDir(rows, "root", ROOT) == Some(ROOT)
  {
    var found := FindDir(rows, "root", ROOT).value;
    if found != ROOT {
      assert Twins(rows, ROOT, found) && ChildDir(rows, ROOT, ROOT);
      assert false;
    }
  }

  /** A file row under the next id, in any directory. */
  lemma FileKeepsTree(users: map<string, User>, rows: Table, nextId: nat, row: Row)
    requires TreeInv(users, rows, nextId) && !row.isDir
    requires row.owner in users && row.fileName != "" && '/' !in row.fileName
    requires row.parent in rows && rows[row.parent].isDir
    ensures TreeInv(users, rows[nextId := row], nextId + 1)
    ensures nextId !in rows && DirsKept(rows, rows[nextId := row])
  {
    var after, next := rows[nextId := row], nextId + 1;
    assert RowOk(users, rows, nextId, nextId) && RowOk(users, rows, nextId, ROOT);
    forall id ensures RowOk(users, after, next, id) {
      assert RowOk(users, rows, nextId, id) && RowOk(users, rows, nextId, row.parent);
    }
    forall a, b, child | Twins(after, a, b) ensures !ChildDir(after, child, a) {
      assert Twins(rows, a, b) && !ChildDir(rows, child, a);
    }
  }

  /** A directory row under the next id, below the root: no directory has it for a parent. */
  lemma HomeKeepsRows(users: map<string, User>, more: map<string, User>, rows: Table, nextId: nat, name: string)
    requires TreeInv(users, rows, nextId) && name != "" && '/' !in name
    requires users.Keys <= more.Keys && name in more
    ensures var after := rows[nextId := Row(name, name, true, "", ROOT)];
            && (forall id {:trigger RowOk(more, after, nextId + 1, id)} :: RowOk(more, after, nextId + 1, id))
            && nextId !in rows && ROOT in rows && DirsKept(rows, after)
            && (forall child, dir :: ChildDir(after, child, dir) ==>
                  (child == nextId && dir == ROOT) || ChildDir(rows, child, dir))
            && (forall child :: !ChildDir(after, child, nextId))
  {
    var after, next := rows[nextId := Row(name, name, true, "", ROOT)], nextId + 1;
    assert RowOk(users, rows, nextId, nextId) && RowOk(users, rows, nextId, ROOT);
    forall id ensures RowOk(more, after, next, id) {
      assert RowOk(users, rows, nextId, id);
    }
    forall child ensures !ChildDir(after, child, nextId) {
      assert RowOk(users, rows, nextId, child);
    }
  }

  /** The directory row of a registration: it may be a twin, but then of a directory with none below it. */
  lemma HomeKeepsTree(users: map<string, User>, more: map<string, User>, rows: Table, nextId: nat, r: Registration)
    requires TreeInv(users, rows, nextId) && RegistrationOk(rows, r)
    requires users.Keys <= more.Keys && r.name in more
    ensures TreeInv(more, rows[nextId := Row(r.name, r.name, true, "", ROOT)], nextId + 1)
  {
    var after := rows[nextId := Row(r.name, r.name, true, "", ROOT)];
    HomeKeepsRows(users, more, rows, nextId, r.name);
    assert ChildDir(rows, ROOT, ROOT);
    assert !IsDirNamed(rows, ROOT, r.name, ROOT) && forall b :: !Twins(rows, ROOT, b);
    forall a, b, child | Twins(after, a, b) ensures !ChildDir(after, child, a) {
      assert b == nextId ==> IsDirNamed(rows, a, r.name, ROOT);
      assert a != nextId && b != nextId ==> Twins(rows, a, b);
    }
  }

  lemma RegistrationStays(rows: Table, nextId: nat, name: string, r: Registration)
    requires RegistrationOk(rows, r) && IsDirNamed(rows, ROOT, "root", ROOT)
    requires var after := rows[nextId := Row(name, name, true, "", ROOT)];
             && nextId !in rows
             && (forall child, dir :: ChildDir(after, child, dir) ==>
                   (child == nextId && dir == ROOT) || ChildDir(rows, child, dir))
             && (forall child :: !ChildDir(after, child, nextId))
    ensures RegistrationOk(rows[nextId := Row(name, name, true, "", ROOT)], r)
  {
    var after := rows[nextId := Row(name, name, true, "", ROOT)];
    assert ChildDir(rows, ROOT, ROOT);
    assert !IsDirNamed(rows, ROOT, r.name, ROOT);
    forall id, child | IsDirNamed(after, id, r.name, ROOT) ensures !ChildDir(after, child, id) {
      assert id != nextId ==> IsDirNamed(rows, id, r.name, ROOT);
    }
  }

  // ---- Each command keeps it -----------------------------------------------------------------

  lemma SessionSet(d: Disk, fd: int, s: Session)
    requires Inv(d) && fd in d.sessions && SessionOk(d.users, d.rows, s)
    ensures Inv(d.(sessions := d.sessions[fd := s]))
  {
  }

  lemma UploadSet(d: Disk, fd: int, u: Upload)
    requires Inv(d) && fd in d.sessions && UploadOpenable(d, u) && !u.isOpen
    ensures Inv(d.(uploads := d.uploads[fd := u]))
  {
    var after := d.(uploads := d.uploads[fd := u]);
    forall k | k in after.uploads ensures UploadOpenable(after, after.uploads[k]) {
      assert k != fd ==> UploadOpenable(d, d.uploads[k]);
    }
  }

  lemma CdKeepsInv(d: Disk, fd: int, option: string)
    requires Inv(d) && fd in d.sessions
    ensures Inv(Cd(d, fd, option).0)
  {
    var s := d.sessions[fd];
    var path := ShellPath(s, option);
    assert SessionOk(d.users, d.rows, s);
    if DirectoryAt(d.rows, path).Some? {
      NamesNotEmpty(d.users, d.rows, d.nextId);
      CanonicalPath(d.rows, path);
      assert path[0] == '/' && DropSlash(path)[0] == '/';
      assert SessionOk(d.users, d.rows, s.(path := DropSlash(path)));
      SessionSet(d, fd, s.(path := DropSlash(path)));
    }
  }

  lemma RemoveBeginKeepsInv(d: Disk, fd: int, option: string)
    requires Inv(d) && fd in d.sessions
    ensures Inv(RemoveBegin(d, fd, option).0)
  {
    var found := Found(d, fd, ShellPath(d.sessions[fd], option));
    if found.Some? {
      assert RowOk(d.users, d.rows, d.nextId, found.value);
    }
  }

  lemma RowRemoved(users: map<string, User>, rows: Table, nextId: nat, id: nat)
    requires TreeInv(users, rows, nextId) && (id in rows ==> !rows[id].isDir)
    ensures TreeInv(users, rows - {id}, nextId) && DirsKept(rows, rows - {id})
  {
    var after := rows - {id};
    forall k ensures RowOk(users, after, nextId, k) {
      assert RowOk(users, rows, nextId, k);
    }
    forall a, b, child | Twins(after, a, b) ensures !ChildDir(after, child, a) {
      assert Twins(rows, a, b) && !ChildDir(rows, child, a);
    }
  }

  lemma RegistrationsStay(d: Disk, after: Disk)
    requires RegistrationsInv(d) && after.registering == d.registering
    requires forall id :: id in after.rows && after.rows[id].isDir ==> id in d.rows && d.rows[id] == after.rows[id]
    ensures RegistrationsInv(after)
  {
    forall k | k in after.registering ensures RegistrationOk(after.rows, after.registering[k]) {
      assert RegistrationOk(d.rows, d.registering[k]);
      var name := d.registering[k].name;
      forall id, child | IsDirNamed(after.rows, id, name, ROOT) ensures !ChildDir(after.rows, child, id) {
        assert IsDirNamed(d.rows, id, name, ROOT) && !ChildDir(d.rows, child, id);
      }
    }
  }

  lemma RemoveEndKeepsInv(d: Disk, fd: int)
    requires Inv(d) && fd in d.removing
    ensures Inv(RemoveEnd(d, fd))
  {
    var after := RemoveEnd(d, fd);
    RowRemoved(d.users, d.rows, d.nextId, d.removing[fd]);
    OtherRows(d, after);
    RegistrationsStay(d, after);
  }

  /** Homes, sessions and uploads do not mind what happens to rows that are no directories. */
  lemma OtherRows(d: Disk, after: Disk)
    requires HomesInv(d.users, d.rows) && SessionsInv(d) && UploadsInv(d)
    requires DirsKept(d.rows, after.rows) && TwinsAreLeaves(after.rows)
    requires after.users == d.users && after.sessions == d.sessions && after.store == d.store
    requires forall fd :: fd in after.uploads ==> fd in d.uploads && after.uploads[fd] == d.uploads[fd]
    ensures HomesInv(after.users, after.rows) && SessionsInv(after) && UploadsInv(after)
  {
    HomesStay(d.users, d.rows, after.rows);
    forall fd | fd in after.sessions ensures SessionOk(after.users, after.rows, after.sessions[fd]) {
      SessionStays(d.users, d.users, d.rows, after.rows, d.sessions[fd]);
    }
    forall fd | fd in after.uploads ensures UploadOpenable(after, after.uploads[fd]) {
      assert UploadOpenable(d, d.uploads[fd]);
    }
  }

  lemma LoginKeepsInv(h: Hashes, d: Disk, fd: int, name: string, code: string)
    requires Inv(d) && fd in d.sessions
    ensures Inv(Login(h, d, fd, name, code).0)
  {
    if name in d.users {
      SessionSet(d, fd, Session(name, d.users[name].path));
    }
  }

  /** The home path of a name leads to a directory of that name below the root. */
  lemma HomeResolves(rows: Table, id: nat, name: string)
    requires IsDirNamed(rows, ROOT, "root", ROOT) && TwinsAreLeaves(rows) && IsDirNamed(rows, id, name, ROOT)
    requires '/' !in name
    ensures Resolves(rows, HomePath(name))
    ensures Resolve(rows, ROOT, Split(Tail(HomePath(name)))) == FindDir(rows, name, ROOT)
    ensures FindDir(rows, name, ROOT).Some?
    ensures UniqueDirs(rows) ==> Resolve(rows, ROOT, Split(Tail(HomePath(name)))) == Some(id)
  {
    assert Tail(HomePath(name)) == "root" + "/" + name;
    SplitConcat("root", name);
    SplitOne("root");
    SplitOne(name);
    RootIsAlone(rows);
    ResolveOne(rows, ROOT, "root");
    ResolveOne(rows, ROOT, name);
    ResolveConcat(rows, ROOT, ["root"], [name]);
    if UniqueDirs(rows) {
      FindDirIs(rows, id, name, ROOT);
    }
  }

  lemma RegistBeginKeepsInv(d: Disk, fd: int, name: string, salt: string, code: string)
    requires Inv(d) && fd in d.sessions && name != "" && '/' !in name
    ensures Inv(RegistBegin(d, fd, name, salt, code).0)
  {
    if name !in d.users {
      forall id ensures !IsDirNamed(d.rows, id, name, ROOT) {
        assert RowOk(d.users, d.rows, d.nextId, id);
      }
      assert RegistrationOk(d.rows, Registration(name, salt, code));
    }
  }

  lemma RegistEndKeepsHomes(h: Hashes, d: Disk, fd: int)
    requires Inv(d) && fd in d.registering
    ensures var after := RegistEnd(h, d, fd);
            TreeInv(after.users, after.rows, after.nextId) && HomesInv(after.users, after.rows) && SessionsInv(after)
  {
    var after, r := RegistEnd(h, d, fd), d.registering[fd];
    assert RegistrationOk(d.rows, r);
    HomeKeepsTree(d.users, after.users, d.rows, d.nextId, r);
    HomeKeepsRows(d.users, after.users, d.rows, d.nextId, r.name);
    HomesStay(d.users, d.rows, after.rows);
    HomeResolves(after.rows, d.nextId, r.name);
    forall k | k in after.sessions ensures SessionOk(after.users, after.rows, after.sessions[k]) {
      if k != fd {
        assert SessionOk(d.users, d.rows, d.sessions[k]);
        SessionStays(d.users, after.users, d.rows, after.rows, d.sessions[k]);
      }
    }
  }

  lemma RegistEndKeepsInv(h: Hashes, d: Disk, fd: int)
    requires Inv(d) && fd in d.registering
    ensures Inv(RegistEnd(h, d, fd))
  {
    var after, r := RegistEnd(h, d, fd), d.registering[fd];
    RegistEndKeepsHomes(h, d, fd);
    assert RegistrationOk(d.rows, r);
    HomeKeepsRows(d.users, after.users, d.rows, d.nextId, r.name);
    forall k | k in after.registering ensures RegistrationOk(after.rows, after.registering[k]) {
      RegistrationStays(d.rows, d.nextId, r.name, d.registering[k]);
    }
    forall k | k in after.uploads ensures UploadOpenable(after, after.uploads[k]) {
      assert UploadOpenable(d, d.uploads[k]);
    }
  }

  lemma PutsBeginKeepsInv(d: Disk, fd: int, option: string, digest: string, content: seq<byte>)
    requires Inv(d) && fd in d.sessions
    ensures Inv(PutsBegin(d, fd, option, digest, content).0)
  {
    var path, after := TransferPath(d.sessions[fd], option), PutsBegin(d, fd, option, digest, content).0;
    if FileTarget(d.rows, path).Some? {
      ResolveIsDirectory(d.rows, ROOT, DirParts(path));
      TargetIsName(d.rows, path);
      var (dir, name) := FileTarget(d.rows, path).value;
      UploadSet(d, fd, Upload(d.sessions[fd].name, name, dir, digest, content, false, false, 0));
    }
  }

  /** The store's files grow, and new ones appear; nothing else happens to the store. */
  lemma UploadsStay(d: Disk, after: Disk, fd: int)
    requires UploadsInv(d) && after.rows == d.rows && fd in d.uploads && after.uploads.Keys == d.uploads.Keys
    requires forall k :: k in d.uploads && k != fd ==> after.uploads[k] == d.uploads[k]
    requires forall x :: x in d.store ==> x in after.store && |d.store[x]| <= |after.store[x]|
    requires UploadOpenable(after, after.uploads[fd])
    ensures UploadsInv(after)
  {
    forall k | k in after.uploads ensures UploadOpenable(after, after.uploads[k]) {
      assert UploadOpenable(d, d.uploads[k]);
    }
  }

  lemma PutsOpenKeepsInv(d: Disk, fd: int)
    requires Inv(d) && fd in d.uploads && !d.uploads[fd].isOpen
    ensures Inv(PutsOpen(d, fd))
  {
    assert UploadOpenable(d, d.uploads[fd]);
    UploadsStay(d, PutsOpen(d, fd), fd);
    OpenKeepsCreators(d, fd);
  }

  /** Whoever has the file open has found it, or created it before. */
  lemma OpenKeepsCreators(d: Disk, fd: int)
    requires UploadsInv(d) && CreatorsInv(d) && fd in d.uploads && !d.uploads[fd].isOpen
    ensures CreatorsInv(PutsOpen(d, fd))
  {
    forall k | k in d.uploads && d.uploads[k].isOpen ensures d.uploads[k].digest in d.store {
      assert UploadOpenable(d, d.uploads[k]);
    }
  }

  lemma PutsChunkKeepsInv(d: Disk, fd: int, n: nat)
    requires Inv(d) && Receiving(d, fd, n)
    ensures Inv(PutsChunk(d, fd, n))
  {
    assert UploadOpenable(d, d.uploads[fd]);
    UploadsStay(d, PutsChunk(d, fd, n), fd);
  }

  lemma FileAdded(d: Disk, row: Row)
    requires Inv(d) && !row.isDir && row.md5 in d.store
    requires row.owner in d.users && row.fileName != "" && '/' !in row.fileName
    requires row.parent in d.rows && d.rows[row.parent].isDir
    ensures Inv(d.(rows := d.rows[d.nextId := row], nextId := d.nextId + 1))
  {
    var after := d.(rows := d.rows[d.nextId := row], nextId := d.nextId + 1);
    FileKeepsTree(d.users, d.rows, d.nextId, row);
    OtherRows(d, after);
    RegistrationsStay(d, after);
    FileNotRemoved(d, row);
  }

  lemma FileNotRemoved(d: Disk, row: Row)
    requires RemovalsInv(d) && BackedInv(d) && !row.isDir && row.md5 in d.store && d.nextId !in d.rows
    ensures var after := d.(rows := d.rows[d.nextId := row], nextId := d.nextId + 1);
            RemovalsInv(after) && BackedInv(after)
  {
  }

  lemma UploadDropped(d: Disk, fd: int)
    requires Inv(d)
    ensures Inv(d.(uploads := d.uploads - {fd}))
  {
    var after := d.(uploads := d.uploads - {fd});
    forall k | k in after.uploads ensures UploadOpenable(after, after.uploads[k]) {
      assert UploadOpenable(d, d.uploads[k]);
    }
  }

  lemma PutsEndKeepsInv(d: Disk, fd: int)
    requires Inv(d) && fd in d.uploads && d.uploads[fd].isOpen
    ensures Inv(PutsEnd(d, fd))
  {
    var u := d.uploads[fd];
    assert UploadOpenable(d, u);
    UploadDropped(d, fd);
    if u.owner in d.users {
      FileAdded(d.(uploads := d.uploads - {fd}), Row(u.owner, u.fileName, false, u.digest, u.parent));
    }
  }

  lemma StepKeepsInv(h: Hashes, d: Disk, a: Action)
    requires Inv(d) && Allowed(h, d, a)
    ensures Inv(Apply(h, d, a))
  {
    match a
    case Connect(fd) =>
    case Disconnect(fd) =>
    case DoCd(fd, option) => CdKeepsInv(d, fd, option);
    case DoRemove(fd, option) => RemoveBeginKeepsInv(d, fd, option);
    case EndRemove(fd) => RemoveEndKeepsInv(d, fd);
    case DoLogin(fd, name, code) => LoginKeepsInv(h, d, fd, name, code);
    case DoRegist(fd, name, salt, code) => RegistBeginKeepsInv(d, fd, name, salt, code);
    case EndRegist(fd) => RegistEndKeepsInv(h, d, fd);
    case DoPuts(fd, option, digest, content) => PutsBeginKeepsInv(d, fd, option, digest, content);
    case OpenPuts(fd) => PutsOpenKeepsInv(d, fd);
    case Chunk(fd, n) => PutsChunkKeepsInv(d, fd, n);
    case EndPuts(fd) => PutsEndKeepsInv(d, fd);
  }

  /** What holds in every run of all clients, whatever they do and however their commands interleave. */
  lemma {:induction false} RunKeepsInv(h: Hashes, d: Disk, run: seq<Action>)
    requires Inv(d) && CanRun(h, d, run)
    ensures Inv(Run(h, d, run))
    decreases |run|
  {
    if run != [] {
      StepKeepsInv(h, d, run[0]);
      RunKeepsInv(h, Apply(h, d, run[0]), run[1..]);
    }
  }

  /** The names on the way from the root to a directory: parents are older, so the chain ends. */
  ghost function NamesTo(users: map<string, User>, rows: Table, nextId: nat, dir: nat): seq<string>
    requires TreeInv(users, rows, nextId) && dir in rows && rows[dir].isDir
    decreases dir
  {
    assert RowOk(users, rows, nextId, dir);
    if dir == ROOT then [] else NamesTo(users, rows, nextId, rows[dir].parent) + [rows[dir].fileName]
  }

  /** Every directory row is reached from the root by resolving the names of its chain of parents. */
  lemma {:induction false} EveryDirectoryIsReachable(users: map<string, User>, rows: Table, nextId: nat, dir: nat)
    requires TreeInv(users, rows, nextId) && dir in rows && rows[dir].isDir
    requires forall other :: !Twins(rows, dir, other)
    ensures Resolve(rows, ROOT, NamesTo(users, rows, nextId, dir)) == Some(dir)
    decreases dir
  {
    if dir != ROOT {
      assert RowOk(users, rows, nextId, dir);
      var parent, name := rows[dir].parent, rows[dir].fileName;
      assert ChildDir(rows, dir, parent);
      EveryDirectoryIsReachable(users, rows, nextId, parent);
      ResolveConcat(rows, ROOT, NamesTo(users, rows, nextId, parent), [name]);
      ResolveOne(rows, parent, name);
      assert IsDirNamed(rows, dir, name, parent);
      var found := FindDir(rows, name, parent).value;
      assert found != dir ==> Twins(rows, dir, found);
    }
  }

  // ---- The seed rows ---------------------------------------------------------------------

  const SEED_DIGEST := "8ca7408fedb615878a0f226a045a2888"

  /** The rows that the database dump creates; the salts and password hashes are parameters. */
  function SeedRows(): Table {
    map[
      0 := Row("root", "root", true, "", 0),
      1 := Row("ddrh", "ddrh", true, "", 0),
      4 := Row("ddrh", "test", true, "", 1),
      5 := Row("1", "1", true, "", 0),
      8 := Row("ddrh", "数据库系统原理", false, SEED_DIGEST, 1),
      11 := Row("1", "数据库系统原理", false, SEED_DIGEST, 5)
    ]
  }

  function Seed(salt: string -> string, code: string -> string, store: map<string, seq<byte>>): Disk {
    Disk(
      map[
        "1" := User(salt("1"), code("1"), "/root/1"),
        "ddrh" := User(salt("ddrh"), code("ddrh"), "/root/ddrh"),
        "root" := User(salt("root"), code("root"), "/root")],
      SeedRows(), 12, store, map[], map[], map[], map[])
  }

  lemma SeedTree(users: map<string, User>)
    requires users.Keys == {"1", "ddrh", "root"}
    ensures TreeInv(users, SeedRows(), 12) && UniqueFiles(SeedRows()) && UniqueDirs(SeedRows())
  {
    var rows := SeedRows();
    assert "1" in users && "ddrh" in users && "root" in users;
    forall id ensures RowOk(users, rows, 12, id) {
    }
  }

  /** The home directories of the dump are where the walk finds them. */
  lemma SeedHome(name: string, id: nat)
    requires IsDirNamed(SeedRows(), id, name, ROOT) && '/' !in name && name != ""
    ensures Resolves(SeedRows(), HomePath(name)) && DirectoryAt(SeedRows(), HomePath(name)) == Some(id)
  {
    var rows := SeedRows();
    SeedTree(map["1" := User("", "", ""), "ddrh" := User("", "", ""), "root" := User("", "", "")]);
    HomeResolves(rows, id, name);
    var path := HomePath(name);
    assert path[|path| - 1] == name[|name| - 1];
    assert DropSlash(Tail(path)) == Tail(path);
  }

  lemma SeedRootHome()
    ensures Resolves(SeedRows(), "/root")
  {
    var rows := SeedRows();
    SeedTree(map["1" := User("", "", ""), "ddrh" := User("", "", ""), "root" := User("", "", "")]);
    assert Tail("/root") == "root";
    SplitOne("root");
    ResolveOne(rows, ROOT, "root");
    FindDirIs(rows, ROOT, "root", ROOT);
  }

  lemma SeedPaths(salt: string -> string, code: string -> string, store: map<string, seq<byte>>)
    ensures var users := Seed(salt, code, store).users;
            && users.Keys == {"1", "ddrh", "root"}
            && users["1"].path == HomePath("1") && users["ddrh"].path == HomePath("ddrh")
            && users["root"].path == "/root"
  {
  }

  lemma SeedBacked(store: map<string, seq<byte>>)
    requires SEED_DIGEST in store
    ensures forall id :: id in SeedRows() && !SeedRows()[id].isDir ==> SeedRows()[id].md5 in store
  {
  }

  lemma HomesOf(users: map<string, User>, rows: Table, a: string, b: string, c: string)
    requires users.Keys == {a, b, c}
    requires Resolves(rows, users[a].path) && Resolves(rows, users[b].path) && Resolves(rows, users[c].path)
    requires FindDir(rows, a, ROOT).Some? && FindDir(rows, b, ROOT).Some? && FindDir(rows, c, ROOT).Some?
    ensures HomesInv(users, rows)
  {
  }

  /** The state after loading the dump satisfies the invariant, so every run from it does. */
  lemma SeedInv(salt: string -> string, code: string -> string, store: map<string, seq<byte>>)
    requires SEED_DIGEST in store
    ensures Inv(Seed(salt, code, store))
  {
    var d := Seed(salt, code, store);
    SeedPaths(salt, code, store);
    SeedTree(d.users);
    SeedHome("1", 5);
    SeedHome("ddrh", 1);
    SeedRootHome();
    assert IsDirNamed(d.rows, 5, "1", ROOT) && IsDirNamed(d.rows, 1, "ddrh", ROOT);
    assert IsDirNamed(d.rows, ROOT, "root", ROOT);
    HomesOf(d.users, d.rows, "1", "ddrh", "root");
    SeedBacked(store);
    AssembleInv(d);
  }

  lemma AssembleInv(d: Disk)
    requires TreeInv(d.users, d.rows, d.nextId) && HomesInv(d.users, d.rows) && BackedInv(d)
    requires d.sessions == map[] && d.uploads == map[] && d.registering == map[] && d.removing == map[]
    ensures Inv(d)
  {
  }
}
