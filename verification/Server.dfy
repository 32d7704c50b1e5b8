/**
 The do_task functions as methods that change the tables, the store and the client's slot in place,
 each proved to take exactly the step of the state machine in NetDisk. Where a function gives up the
 database lock between its statements, each of its critical sections is a method of its own, so that
 the methods of other sessions can be called in between; the whole function is their composition.
 */
module Server {
  import opened Options
  import opened Bytes
  import opened ClientTable
  import opened PathWalk
  import opened NetDisk
  import opened Commands

  ghost function SessionsOf(slots: seq<Slot>): map<int, Session> {
    map fd | fd in Fds(slots) ::
      ConnectedIffInFds(slots, fd); Session(slots[SlotOf(slots, fd)].name, slots[SlotOf(slots, fd)].path)
  }

  lemma SessionAt(slots: seq<Slot>, k: nat, fd: int)
    requires Distinct(slots) && Holds(slots, k, fd) && fd != -1
    ensures fd in SessionsOf(slots) && SessionsOf(slots)[fd] == Session(slots[k].name, slots[k].path)
  {
    SlotIs(slots, k, fd);
    ConnectedIffInFds(slots, fd);
  }

  lemma NobodyConnected(slots: seq<Slot>)
    requires forall k :: 0 <= k < |slots| ==> slots[k] == FREE
    ensures Distinct(slots) && SessionsOf(slots) == map[]
  {
  }

  lemma FdsUpdated(slots: seq<Slot>, k: nat, slot: Slot)
    requires k < |slots| && slots[k].fd == slot.fd
    ensures Fds(slots[k := slot]) == Fds(slots)
    ensures Distinct(slots) ==> Distinct(slots[k := slot])
  {
    var after := slots[k := slot];
    forall f ensures f in Fds(after) <==> f in Fds(slots) {
      if f in Fds(slots) {
        var j :| 0 <= j < |slots| && slots[j].fd != -1 && slots[j].fd == f;
        assert after[j].fd == f;
      }
      if f in Fds(after) {
        var j :| 0 <= j < |after| && after[j].fd != -1 && after[j].fd == f;
        assert slots[j].fd == f;
      }
    }
  }

  lemma SessionUpdated(slots: seq<Slot>, k: nat, fd: int, name: string, path: string)
    requires Distinct(slots) && Holds(slots, k, fd) && fd != -1
    ensures var after := slots[k := slots[k].(name := name, path := path)];
            Distinct(after) && SessionsOf(after) == SessionsOf(slots)[fd := Session(name, path)]
  {
    var after := slots[k := slots[k].(name := name, path := path)];
    FdsUpdated(slots, k, slots[k].(name := name, path := path));
    SessionAt(slots, k, fd);
    forall f | f in Fds(slots)
      ensures SessionsOf(after)[f] == SessionsOf(slots)[fd := Session(name, path)][f]
    {
      ConnectedIffInFds(slots, f);
      var j := SlotOf(slots, f);
      SessionAt(slots, j, f);
      SessionAt(after, j, f);
      if f == fd {
        SlotIs(slots, k, fd);
      }
    }
  }

  // ---- Parsing of options ------------------------------------------------------------------

  /** The part of a login, register or puts option before its first dollar sign, and the part after. */
  function Dollar(option: string): (k: nat)
    requires '$' in option
    ensures k < |option| && option[k] == '$' && '$' !in option[..k]
  {
    if option[0] == '$' then 0 else 1 + Dollar(option[1..])
  }

  lemma {:induction false} DollarIs(option: string, k: nat)
    requires k < |option| && option[k] == '$' && '$' !in option[..k]
    ensures Dollar(option) == k
    decreases k
  {
    if k > 0 {
      assert option[..k][0] == option[0];
      assert option[1..][..k - 1] == option[..k][1..];
      DollarIs(option[1..], k - 1);
    }
  }

  /** What the client sends, `name$code` or `path$digest`, is taken apart again. */
  lemma ParseRendered(front: string, back: string)
    requires '$' !in front
    ensures '$' in front + "$" + back
    ensures var option := front + "$" + back;
            var k := Dollar(option);
            option[..k] == front && option[k + 1..] == back
  {
    var option := front + "$" + back;
    assert option[|front|] == '$' && option[..|front|] == front;
    DollarIs(option, |front|);
  }

  method SplitAtDollar(option: string) returns (front: string, back: string)
    requires '$' in option
    ensures front == option[..Dollar(option)] && back == option[Dollar(option) + 1..]
  {
    var i := 0;
    front, back := "", "";
    while option[i] != '$'
      invariant 0 <= i < |option|
      invariant front == option[..i] && '$' !in front
      invariant exists k :: i <= k < |option| && option[k] == '$'
      decreases |option| - i
    {
      front := front + [option[i]];
      i := i + 1;
    }
    DollarIs(option, i);
    i := i + 1;
    while i < |option|
      invariant Dollar(option) + 1 <= i <= |option|
      invariant back == option[Dollar(option) + 1..i]
    {
      back := back + [option[i]];
      i := i + 1;
    }
  }

  // ---- The loop of recv_file on the server -------------------------------------------------

  /** What one recv returns when the script says n: nothing on a retry, at most 1000, at most what is left. */
  function Taken(n: nat, left: nat): nat {
    if n <= RECV_SIZE && n <= left then n else if left <= RECV_SIZE then left else RECV_SIZE
  }

  predicate Open(d: Disk, fd: int) {
    && fd in d.uploads && d.uploads[fd].isOpen && d.uploads[fd].digest in d.store
    && d.uploads[fd].pos <= |d.store[d.uploads[fd].digest]|
  }

  /** The pieces that arrive until the file is complete or the connection breaks. */
  function ReceiveAll(d: Disk, fd: int, script: seq<nat>): (after: Disk)
    requires Open(d, fd)
    ensures Open(after, fd)
    decreases |script|
  {
    var u := d.uploads[fd];
    if script == [] || u.pos >= |u.content| then d
    else
      var n := Taken(script[0], |u.content| - u.pos);
      ReceiveAll(if n == 0 then d else PutsChunk(d, fd, n), fd, script[1..])
  }

  /** A receive loop that no other command interrupts is a run of the state machine. */
  lemma {:induction false} ReceiveAllIsRun(h: Hashes, d: Disk, fd: int, script: seq<nat>) returns (run: seq<Action>)
    requires Open(d, fd)
    ensures CanRun(h, d, run) && Run(h, d, run) == ReceiveAll(d, fd, script)
    ensures forall k :: 0 <= k < |run| ==> run[k].Chunk? && run[k].fd == fd
    decreases |script|
  {
    var u := d.uploads[fd];
    if script == [] || u.pos >= |u.content| {
      run := [];
    } else {
      var n := Taken(script[0], |u.content| - u.pos);
      if n == 0 {
        run := ReceiveAllIsRun(h, d, fd, script[1..]);
      } else {
        var rest := ReceiveAllIsRun(h, PutsChunk(d, fd, n), fd, script[1..]);
        RunFirst(h, d, Chunk(fd, n), rest);
        run := [Chunk(fd, n)] + rest;
      }
    }
  }

  /** An accepted upload from the opening of its file to the inserted row. */
  function Uploaded(d: Disk, fd: int, script: seq<nat>): Disk
    requires fd in d.uploads
  {
    PutsEnd(ReceiveAll(PutsOpen(d, fd), fd, script), fd)
  }

  /** With no other command in between, this is a run of the state machine. */
  lemma UploadedIsRun(h: Hashes, d: Disk, fd: int, script: seq<nat>) returns (run: seq<Action>)
    requires fd in d.uploads && !d.uploads[fd].isOpen
    ensures CanRun(h, d, run) && Run(h, d, run) == Uploaded(d, fd, script)
    ensures forall k :: 0 <= k < |run| ==> run[k].fd == fd
  {
    var open := PutsOpen(d, fd);
    var pieces := ReceiveAllIsRun(h, open, fd, script);
    var full := ReceiveAll(open, fd, script);
    RunOne(h, full, EndPuts(fd));
    RunConcat(h, open, pieces, [EndPuts(fd)]);
    RunFirst(h, d, OpenPuts(fd), pieces + [EndPuts(fd)]);
    run := [OpenPuts(fd)] + (pieces + [EndPuts(fd)]);
  }

  lemma {:induction false} ReceiveAllKeeps(d: Disk, fd: int, script: seq<nat>)
    requires Open(d, fd)
    ensures var after := ReceiveAll(d, fd, script);
            && after == d.(store := after.store, uploads := after.uploads) && fd in after.uploads
            && var u, v := d.uploads[fd], after.uploads[fd];
               v.owner == u.owner && v.fileName == u.fileName && v.parent == u.parent && v.digest == u.digest
    decreases |script|
  {
    var u := d.uploads[fd];
    if script != [] && u.pos < |u.content| {
      var n := Taken(script[0], |u.content| - u.pos);
      ReceiveAllKeeps(if n == 0 then d else PutsChunk(d, fd, n), fd, script[1..]);
    }
  }

  /** An accepted upload ends in a row of the session's user at the place that its option led to. */
  lemma UploadedToItsPlace(
    d: Disk, fd: int, option: string, digest: string, content: seq<byte>, script: seq<nat>)
    requires fd in d.sessions && PutsBegin(d, fd, option, digest, content).1.ReadyFor? && d.sessions[fd].name in d.users
    ensures fd in PutsBegin(d, fd, option, digest, content).0.uploads
    ensures FileAt(d.rows, d.sessions[fd], option).Some?
    ensures var owner, target := d.sessions[fd].name, FileAt(d.rows, d.sessions[fd], option).value;
            Uploaded(PutsBegin(d, fd, option, digest, content).0, fd, script).rows ==
            d.rows[d.nextId := Row(owner, target.1, false, digest, target.0)]
  {
    PutsExactly(d, fd, option, digest, content);
    var open := PutsOpen(PutsBegin(d, fd, option, digest, content).0, fd);
    ReceiveAllKeeps(open, fd, script);
  }

  lemma ReceiveAllStep(d: Disk, fd: int, script: seq<nat>, i: nat)
    requires Open(d, fd) && i < |script| && d.uploads[fd].pos < |d.uploads[fd].content|
    ensures var n := Taken(script[i], |d.uploads[fd].content| - d.uploads[fd].pos);
            ReceiveAll(d, fd, script[i..]) ==
            ReceiveAll(if n == 0 then d else PutsChunk(d, fd, n), fd, script[i + 1..])
  {
    assert script[i..][0] == script[i] && script[i..][1..] == script[i + 1..];
  }

  lemma WriteAtEnd(file: seq<byte>, piece: seq<byte>)
    ensures Overwrite(file, |file|, piece) == file + piece
  {
  }

  lemma NothingUnderWay(d: Disk)
    requires ConnectedInv(d) && d.sessions == map[]
    ensures d.uploads == map[] && d.registering == map[] && d.removing == map[]
  {
    assert d.uploads.Keys == {} && d.registering.Keys == {} && d.removing.Keys == {};
  }

  class Server {
    const db: Database
    const slots: array<Slot>
    var users: map<string, User>
    var rows: Table
    var nextId: nat
    var store: map<string, seq<byte>>
    // What the workers hold from one critical section to the next.
    var uploads: map<int, Upload>
    var registering: map<int, Registration>
    var removing: map<int, nat>

    ghost function View(): Disk
      reads this, slots
    {
      Disk(users, rows, nextId, store, SessionsOf(slots[..]), uploads, registering, removing)
    }

    ghost predicate Valid()
      reads this, slots
    {
      slots.Length == TCP_CAPACITY && Distinct(slots[..]) && Answers(db)
    }

    /** The server starts with the tables and the store it finds, and nobody connected. */
    constructor (database: Database, d: Disk)
      requires Answers(database) && Inv(d) && d.sessions == map[]
      ensures Valid() && View() == d && db == database && fresh(slots)
    {
      db := database;
      users, rows, nextId, store := d.users, d.rows, d.nextId, d.store;
      uploads, registering, removing := map[], map[], map[];
      slots := new Slot[TCP_CAPACITY](_ => FREE);
      new;
      NobodyConnected(slots[..]);
      NothingUnderWay(d);
    }

    /** The session of a connected client, found by searching the table for its descriptor. */
    method SessionFor(fd: int) returns (k: nat, s: Session)
      requires Valid() && fd in View().sessions
      ensures Holds(slots[..], k, fd) && fd != -1 && k < slots.Length
      ensures s == View().sessions[fd] == Session(slots[k].name, slots[k].path)
    {
      ConnectedIffInFds(slots[..], fd);
      k := FindSlot(slots, fd);
      SessionAt(slots[..], k, fd);
      s := Session(slots[k].name, slots[k].path);
    }

    method SetSession(k: nat, fd: int, name: string, path: string)
      requires k < slots.Length && Distinct(slots[..]) && Holds(slots[..], k, fd) && fd != -1
      modifies slots
      ensures Distinct(slots[..])
      ensures SessionsOf(slots[..]) == old(SessionsOf(slots[..]))[fd := Session(name, path)]
    {
      SessionUpdated(slots[..], k, fd, name, path);
      slots[k] := slots[k].(name := name, path := path);
      assert slots[..] == old(slots[..])[k := old(slots[k]).(name := name, path := path)];
    }

    // ---- Commands with one critical section that matters ---------------------------------------

    method DoTaskCd(fd: int, option: string) returns (reply: Reply)
      requires Valid() && fd in View().sessions && NonEmptyNames(rows)
      modifies slots
      ensures Valid()
      ensures (View(), reply) == Cd(old(View()), fd, option)
      ensures Inv(old(View())) ==> Moves(old(View()), fd, option, View(), reply)
    {
      CdMoves(old(View()), fd, option);
      var k, s := SessionFor(fd);
      var path := ShellPath(s, option);
      var dir := WalkDirectory(db, rows, path);
      if dir.None? {
        return InvalidPath;
      }
      CanonicalPath(rows, path);
      var j := |path| - 1;
      if path[j] == '/' {
        path := path[..j];
      }
      SetSession(k, fd, s.name, path);
      reply := WentTo(option);
    }

    method DoTaskLs(fd: int, option: string) returns (reply: Reply)
      requires Valid() && fd in View().sessions
      ensures reply == Ls(View(), fd, option)
      ensures Inv(View()) ==> Lists(View(), fd, option, reply)
    {
      LsLists(View(), fd, option);
      var _, s := SessionFor(fd);
      var dir := WalkDirectory(db, rows, ShellPath(s, option));
      if dir.None? {
        return InvalidPath;
      }
      var result, listing := set id | id in rows && rows[id].parent == dir.value, {};
      while result != {}
        invariant listing + result == set id | id in rows && rows[id].parent == dir.value
      {
        var row :| row in result;
        listing, result := listing + {row}, result - {row};
      }
      reply := Listing(listing);
    }

    method DoTaskPwd(fd: int) returns (reply: Reply)
      requires Valid() && fd in View().sessions
      ensures reply == WorkingDirectory(View().sessions[fd].path)
    {
      var _, s := SessionFor(fd);
      reply := WorkingDirectory(s.path);
    }

    method DoTaskLogin(h: Hashes, fd: int, option: string) returns (reply: Reply)
      requires Valid() && fd in View().sessions && '$' in option
      modifies slots
      ensures Valid()
      ensures (View(), reply) ==
              Login(h, old(View()), fd, option[..Dollar(option)], option[Dollar(option) + 1..])
      ensures var name, code := option[..Dollar(option)], option[Dollar(option) + 1..];
              if name in users && h.crypt(code, users[name].salt) == users[name].code
              then reply == Success && SessionsOf(slots[..]) ==
                                       old(SessionsOf(slots[..]))[fd := Session(name, users[name].path)]
              else reply == LoginFailure && slots[..] == old(slots[..])
    {
      var name, code := SplitAtDollar(option);
      if name in users && h.crypt(code, users[name].salt) == users[name].code {
        var k, _ := SessionFor(fd);
        SetSession(k, fd, name, users[name].path);
        reply := Success;
      } else {
        reply := LoginFailure;
      }
    }

    method DoTaskGets(fd: int, option: string) returns (reply: Reply)
      requires Valid() && fd in View().sessions
      ensures reply == Gets(View(), fd, option)
      ensures Sends(View(), fd, option, reply)
    {
      GetsExactly(View(), fd, option);
      var _, s := SessionFor(fd);
      var target := WalkFile(db, rows, TransferPath(s, option));
      if target.None? {
        return NotAFile;
      }
      var (dir, name) := target.value;
      var row := db.file(rows, s.name, name, dir);
      if row.None? {
        return NoSuchFile;
      }
      reply := Sending(name, rows[row.value].md5);
    }

    // ---- remove --------------------------------------------------------------------------------

    /** The SELECT of remove. */
    method FindRemoved(fd: int, option: string) returns (reply: Reply)
      requires Valid() && fd in View().sessions
      modifies this`removing
      ensures Valid()
      ensures (View(), reply) == RemoveBegin(old(View()), fd, option)
    {
      var _, s := SessionFor(fd);
      var target := WalkFile(db, rows, ShellPath(s, option));
      if target.None? {
        return NotAFile;
      }
      var (dir, name) := target.value;
      var row := db.file(rows, s.name, name, dir);
      if row.None? {
        return NoSuchFile;
      }
      removing := removing[fd := row.value];
      reply := Removed;
    }

    /** Its DELETE. */
    method Delete(fd: int)
      requires Valid() && fd in removing
      modifies this`rows, this`removing
      ensures Valid()
      ensures View() == RemoveEnd(old(View()), fd)
    {
      rows, removing := rows - {removing[fd]}, removing - {fd};
    }

    method DoTaskRemove(fd: int, option: string) returns (reply: Reply)
      requires Valid() && Idle(View(), fd)
      modifies this
      ensures Valid()
      ensures var (begun, answer) := RemoveBegin(old(View()), fd, option);
              reply == answer && View() == if reply == Removed then RemoveEnd(begun, fd) else old(View())
    {
      reply := FindRemoved(fd, option);
      if reply == Removed {
        Delete(fd);
      }
    }

    // ---- regist --------------------------------------------------------------------------------

    /** The SELECT of a registration. */
    method CheckName(fd: int, option: string, salt: string) returns (reply: Reply)
      requires Valid() && fd in View().sessions && '$' in option
      modifies this`registering
      ensures Valid()
      ensures (View(), reply) ==
              RegistBegin(old(View()), fd, option[..Dollar(option)], salt, option[Dollar(option) + 1..])
    {
      var name, code := SplitAtDollar(option);
      if name in users {
        return RegistFailure;
      }
      registering := registering[fd := Registration(name, salt, code)];
      reply := Success;
    }

    /** Its two INSERTs, of which the first fails when the name is taken by now, and the session. */
    method InsertUser(h: Hashes, fd: int)
      requires Valid() && fd in registering && fd in View().sessions
      modifies this, slots
      ensures Valid()
      ensures View() == RegistEnd(h, old(View()), fd)
    {
      var name := registering[fd].name;
      var k, _ := SessionFor(fd);
      InsertRows(h, fd);
      SetSession(k, fd, name, HomePath(name));
    }

    method InsertRows(h: Hashes, fd: int)
      requires fd in registering
      modifies this`users, this`rows, this`nextId, this`registering
      ensures var Registration(name, salt, code) := old(registering[fd]);
              && users == (if name in old(users) then old(users)
                           else old(users)[name := User(salt, h.crypt(code, salt), HomePath(name))])
              && rows == old(rows)[old(nextId) := Row(name, name, true, "", ROOT)]
              && nextId == old(nextId) + 1 && registering == old(registering) - {fd}
    {
      var Registration(name, salt, code) := registering[fd];
      if name !in users {
        users := users[name := User(salt, h.crypt(code, salt), HomePath(name))];
      }
      rows := rows[nextId := Row(name, name, true, "", ROOT)];
      nextId, registering := nextId + 1, registering - {fd};
    }

    method DoTaskRegist(h: Hashes, fd: int, option: string, salt: string) returns (reply: Reply)
      requires Valid() && Idle(View(), fd) && '$' in option
      modifies this, slots
      ensures Valid()
      ensures var (begun, answer) :=
                RegistBegin(old(View()), fd, option[..Dollar(option)], salt, option[Dollar(option) + 1..]);
              reply == answer && View() == if reply == Success then RegistEnd(h, begun, fd) else old(View())
    {
      reply := CheckName(fd, option, salt);
      if reply == Success {
        InsertUser(h, fd);
      }
    }

    // ---- puts ----------------------------------------------------------------------------------

    /** The SELECT of puts, for a client that holds `content`. */
    method FindTarget(fd: int, option: string, content: seq<byte>) returns (reply: Reply)
      requires Valid() && fd in View().sessions && '$' in option
      modifies this`uploads
      ensures Valid()
      ensures (View(), reply) ==
              PutsBegin(old(View()), fd, option[..Dollar(option)], option[Dollar(option) + 1..], content)
      ensures Accepts(old(View()), fd, option[..Dollar(option)], option[Dollar(option) + 1..], content, View(), reply)
      ensures if reply.ReadyFor? then fd in uploads && !uploads[fd].isOpen else View() == old(View())
    {
      var path, digest := SplitAtDollar(option);
      PutsExactly(View(), fd, path, digest, content);
      var _, s := SessionFor(fd);
      var target := WalkFile(db, rows, TransferPath(s, path));
      if target.None? {
        return NotAFile;
      }
      var (dir, name) := target.value;
      var row := db.file(rows, s.name, name, dir);
      if row.Some? {
        return FileExists;
      }
      uploads := uploads[fd := Upload(s.name, name, dir, digest, content, false, false, 0)];
      reply := ReadyFor(name);
    }

    /** recv_file opens or creates the digest-named file and takes its size for the offset. */
    method OpenFile(fd: int)
      requires Valid() && fd in uploads
      modifies this`store, this`uploads
      ensures Valid()
      ensures View() == PutsOpen(old(View()), fd)
    {
      var u := uploads[fd];
      if u.digest !in store {
        store := store[u.digest := []];
        uploads := uploads[fd := u.(isOpen := true, creator := true, pos := 0)];
      } else {
        uploads := uploads[fd := u.(isOpen := true, creator := false, pos := |store[u.digest]|)];
      }
    }

    /** One recv of n bytes, and the write: O_APPEND, where it is set, moves to the end of the file first. */
    method ReceivePiece(fd: int, n: nat)
      requires Valid() && Receiving(View(), fd, n)
      modifies this`store, this`uploads
      ensures Valid()
      ensures View() == PutsChunk(old(View()), fd, n)
    {
      var u := uploads[fd];
      var at := if u.creator then u.pos else |store[u.digest]|;
      WriteAtEnd(store[u.digest], u.content[u.pos..u.pos + n]);
      store := store[u.digest := Overwrite(store[u.digest], at, u.content[u.pos..u.pos + n])];
      uploads := uploads[fd := u.(pos := u.pos + n)];
    }

    /** The receive loop; `script` says what each recv returns before the connection breaks. */
    method ReceiveFile(fd: int, script: seq<nat>)
      requires Valid() && Open(View(), fd)
      modifies this`store, this`uploads
      ensures Valid()
      ensures View() == ReceiveAll(old(View()), fd, script)
    {
      var i := 0;
      assert script[i..] == script;
      while i < |script| && uploads[fd].pos < |uploads[fd].content|
        invariant i <= |script| && Valid() && Open(View(), fd)
        invariant ReceiveAll(View(), fd, script[i..]) == old(ReceiveAll(View(), fd, script))
        decreases |script| - i
      {
        var n := Taken(script[i], |uploads[fd].content| - uploads[fd].pos);
        ReceiveAllStep(View(), fd, script, i);
        if n > 0 {
          ReceivePiece(fd, n);
        }
        i := i + 1;
      }
    }

    /** The INSERT after recv_file, whatever recv_file returned. */
    method InsertFile(fd: int)
      requires Valid() && fd in uploads && uploads[fd].isOpen
      modifies this`rows, this`nextId, this`uploads
      ensures Valid()
      ensures View() == PutsEnd(old(View()), fd)
    {
      var u := uploads[fd];
      if u.owner in users {
        rows := rows[nextId := Row(u.owner, u.fileName, false, u.digest, u.parent)];
        nextId := nextId + 1;
      }
      uploads := uploads - {fd};
    }

    /** Everything after the check. */
    method StoreUpload(fd: int, script: seq<nat>)
      requires Valid() && fd in uploads
      modifies this`store, this`uploads, this`rows, this`nextId
      ensures Valid()
      ensures View() == Uploaded(old(View()), fd, script)
    {
      OpenFile(fd);
      ReceiveFile(fd, script);
      InsertFile(fd);
    }

    /** puts from the check to the inserted row. */
    method DoTaskPuts(fd: int, option: string, content: seq<byte>, script: seq<nat>) returns (reply: Reply)
      requires Valid() && Idle(View(), fd) && '$' in option
      modifies this
      ensures Valid()
      ensures var (begun, answer) :=
                PutsBegin(old(View()), fd, option[..Dollar(option)], option[Dollar(option) + 1..], content);
              && reply == answer
              && View() == if reply.ReadyFor? then Uploaded(begun, fd, script) else old(View())
      ensures var d, path, digest := old(View()), option[..Dollar(option)], option[Dollar(option) + 1..];
              var owner, target := d.sessions[fd].name, FileAt(d.rows, d.sessions[fd], path);
              reply.ReadyFor? && owner in d.users ==>
                target.Some? && rows == d.rows[d.nextId := Row(owner, target.value.1, false, digest, target.value.0)]
    {
      ghost var d := View();
      reply := FindTarget(fd, option, content);
      if reply.ReadyFor? {
        StoreUpload(fd, script);
        if d.sessions[fd].name in d.users {
          UploadedToItsPlace(d, fd, option[..Dollar(option)], option[Dollar(option) + 1..], content, script);
        }
      }
    }
  }
}
