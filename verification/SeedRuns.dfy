/**
 The failures as runs from the state after loading the dump: each theorem gives every step from the
 first connection on. User names, file names, salts and hashes are arbitrary.
 */
module SeedRuns {
  import opened Options
  import opened Bytes
  import opened PathWalk
  import opened NetDisk
  import opened NetDiskFiles
  import opened NetDiskLimits

  lemma RunSnoc(h: Hashes, d: Disk, run: seq<Action>, a: Action)
    requires CanRun(h, d, run) && Allowed(h, Run(h, d, run), a)
    ensures CanRun(h, d, run + [a]) && Run(h, d, run + [a]) == Apply(h, Run(h, d, run), a)
  {
    RunOne(h, Run(h, d, run), a);
    RunConcat(h, d, run, [a]);
  }

  predicate FreshName(d: Disk, name: string) { name != "" && '/' !in name && name !in d.users }

  predicate PlainName(name: string) { name != "" && '/' !in name }

  // ---- Registrations ---------------------------------------------------------------------------

  function Registering(fd: int, name: string, salt: string, code: string): seq<Action> {
    [Connect(fd), DoRegist(fd, name, salt, code), EndRegist(fd)]
  }

  function Registered(h: Hashes, d: Disk, fd: int, name: string, salt: string, code: string): Disk {
    d.(users := d.users[name := User(salt, h.crypt(code, salt), HomePath(name))],
       rows := d.rows[d.nextId := Row(name, name, true, "", ROOT)],
       nextId := d.nextId + 1,
       sessions := d.sessions[fd := Session(name, HomePath(name))])
  }

  lemma RegisteringRuns(h: Hashes, d: Disk, fd: int, name: string, salt: string, code: string)
    requires Inv(d) && fd !in d.sessions && FreshName(d, name)
    ensures var run := Registering(fd, name, salt, code);
            CanRun(h, d, run) && Run(h, d, run) == Registered(h, d, fd, name, salt, code)
  {
    var d1 := Apply(h, d, Connect(fd));
    var d2 := RegistBegin(d1, fd, name, salt, code).0;
    RunOne(h, d, Connect(fd));
    RunSnoc(h, d, [Connect(fd)], DoRegist(fd, name, salt, code));
    var two := [Connect(fd)] + [DoRegist(fd, name, salt, code)];
    RunSnoc(h, d, two, EndRegist(fd));
    assert two + [EndRegist(fd)] == Registering(fd, name, salt, code);
    assert d2.registering - {fd} == d.registering;
    assert d1.sessions[fd := Session(name, HomePath(name))] == d.sessions[fd := Session(name, HomePath(name))];
  }

  /**
   Two connections register one unused name at once. Both find it unused; the first INSERT of the second
   one fails on the primary key, and nobody looks: two directories of one name stand below the root, and
   the second connection is logged in although its code was never stored.
   */
  lemma RegistrationsRace(
    h: Hashes, salt: string -> string, code: string -> string, store: map<string, seq<byte>>,
    name: string, s1: string, c1: string, s2: string, c2: string)
    requires SEED_DIGEST in store && FreshName(Seed(salt, code, store), name)
    ensures var d, run := Seed(salt, code, store),
                          [Connect(1), Connect(2), DoRegist(1, name, s1, c1), DoRegist(2, name, s2, c2),
                           EndRegist(1), EndRegist(2)];
            && CanRun(h, d, run) && !UniqueDirs(Run(h, d, run).rows)
            && Run(h, d, run).sessions == map[1 := Session(name, HomePath(name)), 2 := Session(name, HomePath(name))]
            && Run(h, d, run).users == d.users[name := User(s1, h.crypt(c1, s1), HomePath(name))]
  {
    var d := Seed(salt, code, store);
    var d2 := d.(sessions := map[1 := Session("", ""), 2 := Session("", "")]);
    var d3 := d2.(registering := map[1 := Registration(name, s1, c1)]);
    var d4 := d2.(registering := map[1 := Registration(name, s1, c1), 2 := Registration(name, s2, c2)]);
    var d5, d6 := RegistEnd(h, d4, 1), RegistEnd(h, RegistEnd(h, d4, 1), 2);
    RunOne(h, d, Connect(1));
    RunSnoc(h, d, [Connect(1)], Connect(2));
    var run := [Connect(1)] + [Connect(2)];
    assert Run(h, d, run) == d2;
    RunSnoc(h, d, run, DoRegist(1, name, s1, c1));
    run := run + [DoRegist(1, name, s1, c1)];
    assert Run(h, d, run) == d3;
    RunSnoc(h, d, run, DoRegist(2, name, s2, c2));
    run := run + [DoRegist(2, name, s2, c2)];
    assert Run(h, d, run) == d4;
    RunSnoc(h, d, run, EndRegist(1));
    RunSnoc(h, d, run + [EndRegist(1)], EndRegist(2));
    assert run + [EndRegist(1)] + [EndRegist(2)] ==
           [Connect(1), Connect(2), DoRegist(1, name, s1, c1), DoRegist(2, name, s2, c2), EndRegist(1), EndRegist(2)];
    assert IsDirNamed(d6.rows, d.nextId, name, ROOT) && IsDirNamed(d6.rows, d.nextId + 1, name, ROOT);
  }

  // ---- Uploads -----------------------------------------------------------------------------------

  /** The directory that a user's home path leads to. */
  ghost function HomeOf(d: Disk, name: string): nat
    requires FindDir(d.rows, name, ROOT).Some?
  {
    FindDir(d.rows, name, ROOT).value
  }

  /** Logged in, at the one home directory, and without files. */
  ghost predicate AtHome(d: Disk, fd: int, name: string) {
    && Idle(d, fd) && d.sessions[fd] == Session(name, HomePath(name)) && name in d.users && '/' !in name
    && (forall id :: id in d.rows && !d.rows[id].isDir ==> d.rows[id].owner != name)
    && (forall a, b :: IsDirNamed(d.rows, a, name, ROOT) && IsDirNamed(d.rows, b, name, ROOT) ==> a == b)
  }

  /** A user without files is allowed to upload a file of any name to the home directory. */
  lemma HomeUpload(h: Hashes, d: Disk, fd: int, name: string, file: string, c: seq<byte>)
    requires Inv(d) && AtHome(d, fd, name) && PlainName(file)
    ensures Allowed(h, d, DoPuts(fd, file, h.md5(c), c)) && FindDir(d.rows, name, ROOT).Some?
    ensures Apply(h, d, DoPuts(fd, file, h.md5(c), c)) ==
            d.(uploads := d.uploads[fd := Upload(name, file, HomeOf(d, name), h.md5(c), c, false, false, 0)])
  {
    HomeTarget(d, name, file);
    assert TransferPath(d.sessions[fd], file) == HomePath(name) + "/" + file;
  }

  lemma HomeTarget(d: Disk, name: string, file: string)
    requires IsDirNamed(d.rows, ROOT, "root", ROOT) && TwinsAreLeaves(d.rows) && FindDir(d.rows, name, ROOT).Some?
    requires '/' !in name && PlainName(file)
    ensures FileTarget(d.rows, HomePath(name) + "/" + file) == Some((HomeOf(d, name), file))
  {
    HomeResolves(d.rows, HomeOf(d, name), name);
    RelativeFile(d.rows, HomePath(name), file);
    FileHere(d.rows, HomeOf(d, name), file);
  }

  lemma NewUserAtHome(h: Hashes, d: Disk, fd: int, name: string, salt: string, code: string)
    requires Inv(d) && fd !in d.sessions && FreshName(d, name)
    ensures Inv(Registered(h, d, fd, name, salt, code)) && AtHome(Registered(h, d, fd, name, salt, code), fd, name)
  {
    RegisteringRuns(h, d, fd, name, salt, code);
    RunKeepsInv(h, d, Registering(fd, name, salt, code));
    forall id | id in d.rows ensures d.rows[id].owner != name && !IsDirNamed(d.rows, id, name, ROOT) {
      assert RowOk(d.users, d.rows, d.nextId, id);
    }
  }

  lemma OthersStayAtHome(h: Hashes, d: Disk, fd: int, name: string, salt: string, code: string, k: int, other: string)
    requires AtHome(d, k, other) && k != fd && name != other
    ensures AtHome(Registered(h, d, fd, name, salt, code), k, other)
  {
    var rows := Registered(h, d, fd, name, salt, code).rows;
    forall a, b | IsDirNamed(rows, a, other, ROOT) && IsDirNamed(rows, b, other, ROOT) ensures a == b {
      assert IsDirNamed(d.rows, a, other, ROOT) && IsDirNamed(d.rows, b, other, ROOT);
    }
  }

  /** The second of two users joins the first. */
  lemma TwoUsers(h: Hashes, d: Disk, n1: string, s1: string, c1: string, n2: string, s2: string, c2: string)
    requires Inv(d) && d.sessions == map[] && d.uploads == map[] && n1 != n2 && FreshName(d, n1) && FreshName(d, n2)
    ensures var run := Registering(1, n1, s1, c1) + Registering(2, n2, s2, c2);
            && CanRun(h, d, run)
            && var after := Run(h, d, run);
               && Inv(after) && AtHome(after, 1, n1) && AtHome(after, 2, n2)
               && after.store == d.store && after.uploads == map[]
  {
    var one := Registered(h, d, 1, n1, s1, c1);
    RegisteringRuns(h, d, 1, n1, s1, c1);
    NewUserAtHome(h, d, 1, n1, s1, c1);
    assert 2 !in one.sessions;
    RegisteringRuns(h, one, 2, n2, s2, c2);
    NewUserAtHome(h, one, 2, n2, s2, c2);
    OthersStayAtHome(h, one, 2, n2, s2, c2, 1, n1);
    RunConcat(h, d, Registering(1, n1, s1, c1), Registering(2, n2, s2, c2));
  }

  function BothAsk(h: Hashes, f1: string, f2: string, c: seq<byte>): seq<Action> {
    [DoPuts(1, f1, h.md5(c), c), DoPuts(2, f2, h.md5(c), c)]
  }

  /** Two sessions, of one user or of two, are both allowed to upload. */
  lemma BothAskRuns(h: Hashes, d: Disk, n1: string, f1: string, n2: string, f2: string, c: seq<byte>)
    requires Inv(d) && AtHome(d, 1, n1) && AtHome(d, 2, n2) && PlainName(f1) && PlainName(f2) && d.uploads == map[]
    ensures FindDir(d.rows, n1, ROOT).Some? && FindDir(d.rows, n2, ROOT).Some? && CanRun(h, d, BothAsk(h, f1, f2, c))
    ensures Run(h, d, BothAsk(h, f1, f2, c)) ==
            d.(uploads := map[1 := Upload(n1, f1, HomeOf(d, n1), h.md5(c), c, false, false, 0),
                              2 := Upload(n2, f2, HomeOf(d, n2), h.md5(c), c, false, false, 0)])
  {
    var a1, a2 := DoPuts(1, f1, h.md5(c), c), DoPuts(2, f2, h.md5(c), c);
    HomeUpload(h, d, 1, n1, f1, c);
    var one := d.(uploads := map[1 := Upload(n1, f1, HomeOf(d, n1), h.md5(c), c, false, false, 0)]);
    assert Apply(h, d, a1) == one;
    StepKeepsInv(h, d, a1);
    RunOne(h, d, a1);
    HomeUpload(h, one, 2, n2, f2, c);
    RunSnoc(h, d, [a1], a2);
    assert [a1] + [a2] == BothAsk(h, f1, f2, c);
  }

  /** The first one creates the file, the second one finds it, still empty. */
  lemma BothOpen(h: Hashes, d: Disk, u: Upload, v: Upload)
    requires d.uploads == map[1 := u, 2 := v] && u.digest == v.digest && u.digest !in d.store
    requires !u.isOpen && !v.isOpen
    ensures CanRun(h, d, [OpenPuts(1), OpenPuts(2)])
    ensures Run(h, d, [OpenPuts(1), OpenPuts(2)]) ==
            d.(store := d.store[u.digest := []],
               uploads := map[1 := u.(isOpen := true, creator := true, pos := 0),
                              2 := v.(isOpen := true, creator := false, pos := 0)])
  {
    RunOne(h, d, OpenPuts(1));
    RunSnoc(h, d, [OpenPuts(1)], OpenPuts(2));
    assert [OpenPuts(1)] + [OpenPuts(2)] == [OpenPuts(1), OpenPuts(2)];
  }

  /** Both have a byte received: the one writes it at its offset, the other to the end. */
  lemma Turn(h: Hashes, d: Disk, u: Upload, v: Upload, x: byte, file: seq<byte>)
    requires d.uploads == map[1 := u, 2 := v] && u.digest == v.digest && u.content == v.content && u.pos == v.pos
    requires u.isOpen && v.isOpen && u.creator && !v.creator && u.pos < |u.content| && u.content[u.pos] == x
    requires u.digest in d.store && u.pos <= |d.store[u.digest]|
    requires file == Overwrite(d.store[u.digest], u.pos, [x]) + [x]
    ensures CanRun(h, d, [Chunk(1, 1), Chunk(2, 1)])
    ensures Run(h, d, [Chunk(1, 1), Chunk(2, 1)]) ==
            d.(store := d.store[u.digest := file],
               uploads := map[1 := u.(pos := u.pos + 1), 2 := v.(pos := v.pos + 1)])
  {
    var placed := Overwrite(d.store[u.digest], u.pos, [x]);
    assert u.content[u.pos..u.pos + 1] == [x];
    RunOne(h, d, Chunk(1, 1));
    var one := PutsChunk(d, 1, 1);
    assert one.store == d.store[u.digest := placed] && one.uploads == map[1 := u.(pos := u.pos + 1), 2 := v];
    RunSnoc(h, d, [Chunk(1, 1)], Chunk(2, 1));
    assert [Chunk(1, 1)] + [Chunk(2, 1)] == [Chunk(1, 1), Chunk(2, 1)];
    assert one.store[u.digest := file] == d.store[u.digest := file];
  }

  function Turns(): seq<Action> { [Chunk(1, 1), Chunk(2, 1)] + [Chunk(1, 1), Chunk(2, 1)] }

  lemma TurnsRun(h: Hashes, d: Disk, u: Upload, v: Upload, c: seq<byte>)
    requires d.uploads == map[1 := u, 2 := v] && u.content == v.content == c && u.digest == v.digest && c == [0, 1]
    requires u.isOpen && v.isOpen && u.creator && !v.creator && u.pos == v.pos == 0
    requires u.digest in d.store && d.store[u.digest] == []
    ensures CanRun(h, d, Turns())
    ensures Run(h, d, Turns()) ==
            d.(store := d.store[u.digest := [0, 1, 1]], uploads := map[1 := u.(pos := 2), 2 := v.(pos := 2)])
  {
    var one := d.(store := d.store[u.digest := [0, 0]], uploads := map[1 := u.(pos := 1), 2 := v.(pos := 1)]);
    Turn(h, d, u, v, c[0], [0, 0]);
    assert Run(h, d, [Chunk(1, 1), Chunk(2, 1)]) == one;
    Turn(h, one, u.(pos := 1), v.(pos := 1), c[1], [0, 1, 1]);
    RunConcat(h, d, [Chunk(1, 1), Chunk(2, 1)], [Chunk(1, 1), Chunk(2, 1)]);
    assert one.store[u.digest := [0, 1, 1]] == d.store[u.digest := [0, 1, 1]];
  }

  function RowOf(u: Upload): Row { Row(u.owner, u.fileName, false, u.digest, u.parent) }

  function TwoRows(rows: Table, next: nat, one: Row, two: Row): Table { rows[next := one][next + 1 := two] }

  lemma BothEnd(h: Hashes, d: Disk, u: Upload, v: Upload)
    requires d.uploads == map[1 := u, 2 := v] && u.isOpen && v.isOpen && u.owner in d.users && v.owner in d.users
    ensures CanRun(h, d, [EndPuts(1), EndPuts(2)])
    ensures Run(h, d, [EndPuts(1), EndPuts(2)]) ==
            d.(rows := TwoRows(d.rows, d.nextId, RowOf(u), RowOf(v)), nextId := d.nextId + 2, uploads := map[])
  {
    RunOne(h, d, EndPuts(1));
    RunSnoc(h, d, [EndPuts(1)], EndPuts(2));
    assert [EndPuts(1)] + [EndPuts(2)] == [EndPuts(1), EndPuts(2)];
  }

  function OpenSendEnd(): seq<Action> { [OpenPuts(1), OpenPuts(2)] + (Turns() + [EndPuts(1), EndPuts(2)]) }

  lemma OpenSendEndRuns(h: Hashes, d: Disk, u: Upload, v: Upload)
    requires d.uploads == map[1 := u, 2 := v] && u.content == v.content == [0, 1] && u.digest == v.digest
    requires !u.isOpen && !v.isOpen && u.digest !in d.store && u.owner in d.users && v.owner in d.users
    ensures CanRun(h, d, OpenSendEnd())
    ensures Run(h, d, OpenSendEnd()) ==
            d.(store := d.store[u.digest := [0, 1, 1]],
               rows := TwoRows(d.rows, d.nextId, RowOf(u), RowOf(v)), nextId := d.nextId + 2, uploads := map[])
  {
    var u1 := u.(isOpen := true, creator := true, pos := 0);
    var v1 := v.(isOpen := true, creator := false, pos := 0);
    var open := d.(store := d.store[u.digest := []], uploads := map[1 := u1, 2 := v1]);
    BothOpen(h, d, u, v);
    TurnsRun(h, open, u1, v1, u.content);
    assert open.store[u.digest := [0, 1, 1]] == d.store[u.digest := [0, 1, 1]];
    var sent := d.(store := d.store[u.digest := [0, 1, 1]], uploads := map[1 := u1.(pos := 2), 2 := v1.(pos := 2)]);
    assert Run(h, open, Turns()) == sent;
    BothEnd(h, sent, u1.(pos := 2), v1.(pos := 2));
    RunConcat(h, open, Turns(), [EndPuts(1), EndPuts(2)]);
    RunConcat(h, d, [OpenPuts(1), OpenPuts(2)], Turns() + [EndPuts(1), EndPuts(2)]);
  }

  function UploadAtOnce(h: Hashes, f1: string, f2: string, c: seq<byte>): seq<Action> {
    BothAsk(h, f1, f2, c) + OpenSendEnd()
  }

  lemma UploadAtOnceRuns(h: Hashes, d: Disk, n1: string, f1: string, n2: string, f2: string, c: seq<byte>)
    requires Inv(d) && AtHome(d, 1, n1) && AtHome(d, 2, n2) && PlainName(f1) && PlainName(f2) && d.uploads == map[]
    requires c == [0, 1] && h.md5(c) !in d.store
    ensures FindDir(d.rows, n1, ROOT).Some? && FindDir(d.rows, n2, ROOT).Some?
    ensures CanRun(h, d, UploadAtOnce(h, f1, f2, c))
    ensures Run(h, d, UploadAtOnce(h, f1, f2, c)) ==
            d.(store := d.store[h.md5(c) := [0, 1, 1]],
               rows := TwoRows(d.rows, d.nextId, Row(n1, f1, false, h.md5(c), HomeOf(d, n1)),
                               Row(n2, f2, false, h.md5(c), HomeOf(d, n2))),
               nextId := d.nextId + 2, uploads := map[])
  {
    BothAskRuns(h, d, n1, f1, n2, f2, c);
    var u := Upload(n1, f1, HomeOf(d, n1), h.md5(c), c, false, false, 0);
    var v := Upload(n2, f2, HomeOf(d, n2), h.md5(c), c, false, false, 0);
    var asked := d.(uploads := map[1 := u, 2 := v]);
    assert Run(h, d, BothAsk(h, f1, f2, c)) == asked;
    OpenSendEndRuns(h, asked, u, v);
    RunConcat(h, d, BothAsk(h, f1, f2, c), OpenSendEnd());
  }

  lemma HomeStays(rows: Table, next: nat, one: Row, two: Row, name: string)
    requires next !in rows && next + 1 !in rows && !one.isDir && !two.isDir && FindDir(rows, name, ROOT).Some?
    requires forall a, b :: IsDirNamed(rows, a, name, ROOT) && IsDirNamed(rows, b, name, ROOT) ==> a == b
    ensures FindDir(TwoRows(rows, next, one, two), name, ROOT) == FindDir(rows, name, ROOT)
  {
    var after, home := TwoRows(rows, next, one, two), FindDir(rows, name, ROOT).value;
    assert IsDirNamed(after, home, name, ROOT);
    var found := FindDir(after, name, ROOT).value;
    assert IsDirNamed(rows, found, name, ROOT);
  }

  lemma OnlyFile(rows: Table, next: nat, one: Row, two: Row)
    requires !one.isDir && two.owner != one.owner
    requires forall id :: id in rows && !rows[id].isDir ==> rows[id].owner != one.owner
    ensures FindFile(TwoRows(rows, next, one, two), one.owner, one.fileName, one.parent) == Some(next)
  {
    var after := TwoRows(rows, next, one, two);
    assert IsFileOf(after, next, one.owner, one.fileName, one.parent);
    var found := FindFile(after, one.owner, one.fileName, one.parent).value;
    assert IsFileOf(after, found, one.owner, one.fileName, one.parent);
  }

  /** What a session reads at home after its file has come into the table. */
  lemma GetsAtHome(d: Disk, after: Disk, name: string, file: string, digest: string, other: Row)
    requires AtHome(d, 1, name) && PlainName(file) && FindDir(d.rows, name, ROOT).Some?
    requires d.nextId !in d.rows && d.nextId + 1 !in d.rows
    requires IsDirNamed(after.rows, ROOT, "root", ROOT) && TwinsAreLeaves(after.rows)
    requires after.rows ==
             TwoRows(d.rows, d.nextId, Row(name, file, false, digest, HomeOf(d, name)), other)
    requires after.sessions == d.sessions && after.users == d.users && !other.isDir && other.owner != name
    ensures 1 in after.sessions && Gets(after, 1, file) == Sending(file, digest)
  {
    HomeStays(d.rows, d.nextId, Row(name, file, false, digest, HomeOf(d, name)), other, name);
    OnlyFile(d.rows, d.nextId, Row(name, file, false, digest, HomeOf(d, name)), other);
    HomeTarget(after, name, file);
    FoundIsSent(after, name, file, digest, d.nextId);
  }

  lemma FoundIsSent(d: Disk, name: string, file: string, digest: string, id: nat)
    requires 1 in d.sessions && d.sessions[1] == Session(name, HomePath(name)) && PlainName(file)
    requires FindDir(d.rows, name, ROOT).Some?
    requires FileTarget(d.rows, HomePath(name) + "/" + file) == Some((HomeOf(d, name), file))
    requires FindFile(d.rows, name, file, HomeOf(d, name)) == Some(id) && d.rows[id].md5 == digest
    ensures Gets(d, 1, file) == Sending(file, digest)
  {
    assert TransferPath(d.sessions[1], file) == HomePath(name) + "/" + file;
  }

  /**
   Two users register and upload the same two bytes at once, to their own directories, and both uploads
   go through: gets promises the one a file under the digest of 0, 1, and the store has 0, 1, 1 there.
   */
  lemma OverlapOnOneDigest(
    h: Hashes, salt: string -> string, code: string -> string, store: map<string, seq<byte>>,
    n1: string, s1: string, c1: string, n2: string, s2: string, c2: string, f1: string, f2: string)
    requires SEED_DIGEST in store && h.md5([0, 1]) !in store && n1 != n2 && PlainName(f1) && PlainName(f2)
    requires FreshName(Seed(salt, code, store), n1) && FreshName(Seed(salt, code, store), n2)
    ensures var d := Seed(salt, code, store);
            var run := Registering(1, n1, s1, c1) + Registering(2, n2, s2, c2) + UploadAtOnce(h, f1, f2, [0, 1]);
            && CanRun(h, d, run)
            && var after := Run(h, d, run);
               && h.md5([0, 1]) in after.store && after.store[h.md5([0, 1])] == [0, 1, 1]
               && after.uploads == map[] && 1 in after.sessions
               && Gets(after, 1, f1) == Sending(f1, h.md5([0, 1]))
  {
    var d := Seed(salt, code, store);
    SeedInv(salt, code, store);
    TwoUsers(h, d, n1, s1, c1, n2, s2, c2);
    var users := Registering(1, n1, s1, c1) + Registering(2, n2, s2, c2);
    OverlapAtHome(h, Run(h, d, users), n1, f1, n2, f2, [0, 1]);
    RunConcat(h, d, users, UploadAtOnce(h, f1, f2, [0, 1]));
  }

  lemma OverlapAtHome(h: Hashes, d: Disk, n1: string, f1: string, n2: string, f2: string, c: seq<byte>)
    requires Inv(d) && AtHome(d, 1, n1) && AtHome(d, 2, n2) && PlainName(f1) && PlainName(f2) && d.uploads == map[]
    requires c == [0, 1] && h.md5(c) !in d.store && n1 != n2
    ensures CanRun(h, d, UploadAtOnce(h, f1, f2, c))
    ensures var after := Run(h, d, UploadAtOnce(h, f1, f2, c));
            && h.md5(c) in after.store && after.store[h.md5(c)] == [0, 1, 1]
            && after.uploads == map[] && 1 in after.sessions && Gets(after, 1, f1) == Sending(f1, h.md5(c))
  {
    UploadAtOnceRuns(h, d, n1, f1, n2, f2, c);
    RunKeepsInv(h, d, UploadAtOnce(h, f1, f2, c));
    assert RowOk(d.users, d.rows, d.nextId, d.nextId) && RowOk(d.users, d.rows, d.nextId, d.nextId + 1);
    var after := Run(h, d, UploadAtOnce(h, f1, f2, c));
    GetsAtHome(d, after, n1, f1, h.md5(c), Row(n2, f2, false, h.md5(c), HomeOf(d, n2)));
  }

  // ---- One user, two sessions -----------------------------------------------------------------------

  function Joining(fd: int, name: string, code: string): seq<Action> { [Connect(fd), DoLogin(fd, name, code)] }

  /** A second session of the user. */
  lemma JoiningRuns(h: Hashes, d: Disk, fd: int, name: string, salt: string, code: string)
    requires name in d.users && d.users[name] == User(salt, h.crypt(code, salt), HomePath(name))
    requires fd !in d.sessions && fd !in d.uploads && fd !in d.registering && fd !in d.removing
    ensures CanRun(h, d, Joining(fd, name, code))
    ensures Run(h, d, Joining(fd, name, code)) == d.(sessions := d.sessions[fd := Session(name, HomePath(name))])
  {
    RunOne(h, d, Connect(fd));
    RunSnoc(h, d, [Connect(fd)], DoLogin(fd, name, code));
    assert [Connect(fd)] + [DoLogin(fd, name, code)] == Joining(fd, name, code);
    assert d.sessions[fd := Session("", "")][fd := Session(name, HomePath(name))] ==
           d.sessions[fd := Session(name, HomePath(name))];
  }

  /** A user registers, logs in a second time, and uploads to one path from both sessions: two rows of one name. */
  lemma OverlapOnOnePath(
    h: Hashes, salt: string -> string, code: string -> string, store: map<string, seq<byte>>,
    name: string, s: string, c: string, file: string, content: seq<byte>) returns (rest: seq<Action>)
    requires SEED_DIGEST in store && FreshName(Seed(salt, code, store), name) && PlainName(file)
    ensures var d := Seed(salt, code, store);
            var run := Registering(1, name, s, c) + (Joining(2, name, c) + (BothAsk(h, file, file, content) + rest));
            NoPuts(rest) && CanRun(h, d, run) && !UniqueFiles(Run(h, d, run).rows)
  {
    var d, one := Seed(salt, code, store), Registered(h, Seed(salt, code, store), 1, name, s, c);
    SeedInv(salt, code, store);
    RegisteringRuns(h, d, 1, name, s, c);
    NewUserAtHome(h, d, 1, name, s, c);
    JoiningRuns(h, one, 2, name, s, c);
    var two := Run(h, one, Joining(2, name, c));
    RunKeepsInv(h, one, Joining(2, name, c));
    BothAskRuns(h, two, name, file, name, file, content);
    var asked := Run(h, two, BothAsk(h, file, file, content));
    rest := OverlapOnOneName(h, asked, 1, 2);
    RunConcat(h, two, BothAsk(h, file, file, content), rest);
    RunConcat(h, one, Joining(2, name, c), BothAsk(h, file, file, content) + rest);
    RunConcat(h, d, Registering(1, name, s, c), Joining(2, name, c) + (BothAsk(h, file, file, content) + rest));
  }
}
