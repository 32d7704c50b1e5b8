/**
 The rows of table FILE and the walk over a path that do_task_cd, do_task_ls, do_task_remove,
 do_task_gets and do_task_puts perform one character at a time. A path is resolved by two
 independent definitions: `Resolve` follows a list of components, and the methods at the end
 are the character loops of the server.
 */
module PathWalk {
  import opened Options
  import opened Sequences

  /** One row of FILE; its dir_id is the key of the table. Directories carry no digest. */
  datatype Row = Row(owner: string, fileName: string, isDir: bool, md5: string, parent: nat)

  type Table = map<nat, Row>

  const ROOT: nat := 0

  predicate IsDirNamed(rows: Table, id: nat, name: string, parent: nat) {
    id in rows && rows[id].isDir && rows[id].fileName == name && rows[id].parent == parent
  }

  predicate IsFileOf(rows: Table, id: nat, owner: string, name: string, parent: nat) {
    id in rows && !rows[id].isDir && rows[id].owner == owner && rows[id].fileName == name && rows[id].parent == parent
  }

  /** SELECT of a directory by name and parent: some matching row, when there is one. */
  ghost function FindDir(rows: Table, name: string, parent: nat): (r: Option<nat>)
    ensures r.Some? ==> IsDirNamed(rows, r.value, name, parent)
    ensures r.None? ==> forall id :: !IsDirNamed(rows, id, name, parent)
  {
    if exists id :: IsDirNamed(rows, id, name, parent)
    then var id :| IsDirNamed(rows, id, name, parent); Some(id)
    else None
  }

  /** SELECT of a file by owner, name and parent. */
  ghost function FindFile(rows: Table, owner: string, name: string, parent: nat): (r: Option<nat>)
    ensures r.Some? ==> IsFileOf(rows, r.value, owner, name, parent)
    ensures r.None? ==> forall id :: !IsFileOf(rows, id, owner, name, parent)
  {
    if exists id :: IsFileOf(rows, id, owner, name, parent)
    then var id :| IsFileOf(rows, id, owner, name, parent); Some(id)
    else None
  }

  ghost predicate UniqueDirs(rows: Table) {
    forall a, b, name, parent ::
      IsDirNamed(rows, a, name, parent) && IsDirNamed(rows, b, name, parent) ==> a == b
  }

  ghost predicate UniqueFiles(rows: Table) {
    forall a, b, owner, name, parent ::
      IsFileOf(rows, a, owner, name, parent) && IsFileOf(rows, b, owner, name, parent) ==> a == b
  }

  ghost predicate NonEmptyNames(rows: Table) {
    forall id :: id in rows ==> rows[id].fileName != ""
  }

  // ---- Components of a path ------------------------------------------------------------

  /** The components between slashes; n slashes make n + 1 components, some possibly empty. */
  function Split(s: string): (r: seq<string>)
    ensures |r| >= 1
  {
    if s == "" then [""]
    else
      var rest := Split(s[1..]);
      if s[0] == '/' then [""] + rest else [[s[0]] + rest[0]] + rest[1..]
  }

  /** The inverse of Split. */
  function Join(parts: seq<string>): string
    requires |parts| >= 1
  {
    if |parts| == 1 then parts[0] else parts[0] + "/" + Join(parts[1..])
  }

  /** Both loops start at index 1: the first character is never looked at. */
  function Tail(path: string): string {
    if path == "" then "" else path[1..]
  }

  function DropSlash(s: string): string {
    if s != "" && s[|s| - 1] == '/' then s[..|s| - 1] else s
  }

  lemma {:induction false} SplitOne(s: string)
    requires '/' !in s
    ensures Split(s) == [s]
  {
    if s != "" {
      SplitOne(s[1..]);
      assert s == [s[0]] + s[1..];
    }
  }

  lemma {:induction false} SplitConcat(a: string, b: string)
    ensures Split(a + "/" + b) == Split(a) + Split(b)
  {
    var s := a + "/" + b;
    if a == "" {
      assert s[1..] == b;
    } else {
      var t := a[1..];
      SplitConcat(t, b);
      assert s[0] == a[0] && s[1..] == t + "/" + b;
      if a[0] == '/' {
        Assoc([""], Split(t), Split(b));
      } else {
        var first := [[a[0]] + Split(t)[0]];
        assert (Split(t) + Split(b))[1..] == Split(t)[1..] + Split(b);
        Assoc(first, Split(t)[1..], Split(b));
      }
    }
  }

  lemma {:induction false} JoinSplit(s: string)
    ensures Join(Split(s)) == s
  {
    if s != "" {
      JoinSplit(s[1..]);
      var rest := Split(s[1..]);
      if s[0] == '/' {
        assert Split(s)[1..] == rest;
      } else {
        assert Split(s)[1..] == rest[1..];
      }
      assert s == [s[0]] + s[1..];
    }
  }

  lemma {:induction false} NoSlashInside(s: string)
    ensures forall k :: 0 <= k < |Split(s)| ==> '/' !in Split(s)[k]
  {
    if s != "" {
      NoSlashInside(s[1..]);
    }
  }

  lemma {:induction false} SplitJoin(parts: seq<string>)
    requires |parts| >= 1 && forall k :: 0 <= k < |parts| ==> '/' !in parts[k]
    ensures Split(Join(parts)) == parts
  {
    if |parts| == 1 {
      SplitOne(parts[0]);
    } else {
      SplitJoin(parts[1..]);
      SplitOne(parts[0]);
      SplitConcat(parts[0], Join(parts[1..]));
    }
  }

  // ---- The simple resolver -------------------------------------------------------------

  /** Follows the components from directory `from`, one directory lookup each. */
  ghost function Resolve(rows: Table, from: nat, parts: seq<string>): Option<nat>
    decreases |parts|
  {
    if parts == [] then Some(from)
    else match FindDir(rows, parts[0], from)
      case None => None
      case Some(next) => Resolve(rows, next, parts[1..])
  }

  /** What cd and ls take a path to mean: one trailing slash does not count. */
  ghost function DirectoryAt(rows: Table, path: string): Option<nat> {
    Resolve(rows, ROOT, Split(DropSlash(Tail(path))))
  }

  /** A file below directory `from`: the components but the last lead to its directory. */
  ghost function FileFrom(rows: Table, from: nat, parts: seq<string>): Option<(nat, string)>
    requires |parts| >= 1
  {
    var name := parts[|parts| - 1];
    match Resolve(rows, from, parts[..|parts| - 1])
    case None => None
    case Some(dir) => if name == "" then None else Some((dir, name))
  }

  /** What remove, gets and puts take a path to mean: a directory and a non-empty file name. */
  ghost function FileTarget(rows: Table, path: string): Option<(nat, string)> {
    FileFrom(rows, ROOT, Split(Tail(path)))
  }

  lemma {:induction false} ResolveConcat(rows: Table, from: nat, a: seq<string>, b: seq<string>)
    ensures Resolve(rows, from, a + b) ==
            match Resolve(rows, from, a) { case None => None case Some(d) => Resolve(rows, d, b) }
    decreases |a|
  {
    if a == [] {
      assert a + b == b;
    } else {
      assert (a + b)[0] == a[0] && (a + b)[1..] == a[1..] + b;
      match FindDir(rows, a[0], from)
      case None =>
      case Some(next) => ResolveConcat(rows, next, a[1..], b);
    }
  }

  lemma ResolveOne(rows: Table, from: nat, name: string)
    ensures Resolve(rows, from, [name]) == FindDir(rows, name, from)
  {
    match FindDir(rows, name, from)
    case None =>
    case Some(next) => assert Resolve(rows, next, [name][1..]) == Some(next);
  }

  lemma FindDirIs(rows: Table, id: nat, name: string, parent: nat)
    requires UniqueDirs(rows) && IsDirNamed(rows, id, name, parent)
    ensures FindDir(rows, name, parent) == Some(id)
  {
    var r := FindDir(rows, name, parent);
    assert r.Some? && IsDirNamed(rows, r.value, name, parent);
  }

  lemma FindFileIs(rows: Table, id: nat, owner: string, name: string, parent: nat)
    requires UniqueFiles(rows) && IsFileOf(rows, id, owner, name, parent)
    ensures FindFile(rows, owner, name, parent) == Some(id)
  {
    var r := FindFile(rows, owner, name, parent);
    assert r.Some? && IsFileOf(rows, r.value, owner, name, parent);
  }

  /** Every directory row of `rows` is still there in `after`. */
  ghost predicate DirsKept(rows: Table, after: Table) {
    forall id :: id in rows && rows[id].isDir ==> id in after && after[id] == rows[id]
  }

  /** No lookup on the way has a second row to answer with. */
  ghost predicate OneAnswer(rows: Table, from: nat, parts: seq<string>)
    decreases |parts|
  {
    parts == [] ||
    match FindDir(rows, parts[0], from)
    case None => true
    case Some(next) =>
      (forall id :: IsDirNamed(rows, id, parts[0], from) ==> id == next) && OneAnswer(rows, next, parts[1..])
  }

  lemma {:induction false} UniqueDirsOneAnswer(rows: Table, from: nat, parts: seq<string>)
    requires UniqueDirs(rows)
    ensures OneAnswer(rows, from, parts)
    decreases |parts|
  {
    if parts != [] && FindDir(rows, parts[0], from).Some? {
      UniqueDirsOneAnswer(rows, FindDir(rows, parts[0], from).value, parts[1..]);
    }
  }

  /** A path that resolves goes on resolving to the same directory while no directory goes away or gets a twin on it. */
  lemma {:induction false} ResolveStable(rows: Table, after: Table, from: nat, parts: seq<string>)
    requires DirsKept(rows, after) && OneAnswer(after, from, parts)
    requires Resolve(rows, from, parts).Some?
    ensures Resolve(after, from, parts) == Resolve(rows, from, parts)
    decreases |parts|
  {
    if parts != [] {
      var next := FindDir(rows, parts[0], from).value;
      assert IsDirNamed(after, next, parts[0], from);
      assert FindDir(after, parts[0], from) == Some(next);
      ResolveStable(rows, after, next, parts[1..]);
    }
  }

  /** Two directories of one name in one place. */
  ghost predicate Twins(rows: Table, a: nat, b: nat) {
    && a != b && a in rows && b in rows && rows[a].isDir && rows[b].isDir
    && rows[a].fileName == rows[b].fileName && rows[a].parent == rows[b].parent
  }

  ghost predicate ChildDir(rows: Table, child: nat, dir: nat) {
    child in rows && rows[child].isDir && rows[child].parent == dir
  }

  ghost predicate TwinsAreLeaves(rows: Table) {
    forall a, b, child :: Twins(rows, a, b) ==> !ChildDir(rows, child, a)
  }

  /** With twins at the ends of paths only, a path that resolves goes on resolving, perhaps to a twin. */
  lemma {:induction false} ResolveSurvives(rows: Table, after: Table, from: nat, parts: seq<string>)
    requires DirsKept(rows, after) && TwinsAreLeaves(after)
    requires Resolve(rows, from, parts).Some?
    ensures Resolve(after, from, parts).Some?
    decreases |parts|
  {
    if parts != [] {
      var next := FindDir(rows, parts[0], from).value;
      assert IsDirNamed(after, next, parts[0], from);
      var other := FindDir(after, parts[0], from).value;
      var rest := parts[1..];
      if other == next {
        ResolveSurvives(rows, after, next, rest);
      } else if rest != [] {
        var child := FindDir(rows, rest[0], next).value;
        assert Twins(after, next, other) && ChildDir(after, child, next);
        assert false;
      }
    }
  }

  /**
   A walk whose lookups see different tables, because other commands run in between: the first sees
   tables[0], the next tables[1], and so on.
   */
  ghost function Walked(tables: seq<Table>, from: nat, parts: seq<string>): Option<nat>
    requires |tables| == |parts|
    decreases |parts|
  {
    if parts == [] then Some(from)
    else match FindDir(tables[0], parts[0], from)
      case None => None
      case Some(next) => Walked(tables[1..], next, parts[1..])
  }

  /** Such a walk answers as one that is done at once: at its end when it succeeds, at its start when it fails. */
  lemma {:induction false} WalkedAtOnce(
    tables: seq<Table>, from: nat, parts: seq<string>, first: Table, last: Table)
    requires |tables| == |parts| && UniqueDirs(last)
    requires forall k :: 0 <= k < |tables| ==>
               UniqueDirs(tables[k]) && DirsKept(first, tables[k]) && DirsKept(tables[k], last)
    ensures Walked(tables, from, parts).Some? ==> Walked(tables, from, parts) == Resolve(last, from, parts)
    ensures Walked(tables, from, parts).None? ==> Resolve(first, from, parts).None?
    decreases |parts|
  {
    if parts != [] {
      var rows, name := tables[0], parts[0];
      if FindDir(rows, name, from).Some? {
        var next := FindDir(rows, name, from).value;
        assert IsDirNamed(last, next, name, from);
        FindDirIs(last, next, name, from);
        if FindDir(first, name, from).Some? {
          assert IsDirNamed(rows, FindDir(first, name, from).value, name, from);
        }
        WalkedAtOnce(tables[1..], next, parts[1..], first, last);
      } else if FindDir(first, name, from).Some? {
        assert IsDirNamed(rows, FindDir(first, name, from).value, name, from);
        assert false;
      }
    }
  }

  /** The directories that a file path leads through. */
  function DirParts(path: string): seq<string> {
    var parts := Split(Tail(path));
    parts[..|parts| - 1]
  }

  lemma FileTargetStable(rows: Table, after: Table, path: string)
    requires DirsKept(rows, after) && OneAnswer(after, ROOT, DirParts(path))
    requires FileTarget(rows, path).Some?
    ensures FileTarget(after, path) == FileTarget(rows, path)
  {
    ResolveStable(rows, after, ROOT, DirParts(path));
  }

  lemma TargetIsName(rows: Table, path: string)
    requires FileTarget(rows, path).Some?
    ensures FileTarget(rows, path).value.1 != "" && '/' !in FileTarget(rows, path).value.1
  {
    NoSlashInside(Tail(path));
  }

  lemma {:induction false} ResolveIsDirectory(rows: Table, from: nat, parts: seq<string>)
    requires from in rows && rows[from].isDir
    requires Resolve(rows, from, parts).Some?
    ensures var d := Resolve(rows, from, parts).value; d in rows && rows[d].isDir
    decreases |parts|
  {
    if parts != [] {
      ResolveIsDirectory(rows, FindDir(rows, parts[0], from).value, parts[1..]);
    }
  }

  /** An empty component never resolves: "//" inside a path, or a second trailing slash. */
  lemma {:induction false} EmptyComponentFails(rows: Table, from: nat, parts: seq<string>, k: nat)
    requires NonEmptyNames(rows)
    requires k < |parts| && parts[k] == ""
    ensures Resolve(rows, from, parts) == None
    decreases |parts|
  {
    match FindDir(rows, parts[0], from)
    case None =>
    case Some(next) =>
      if k > 0 {
        EmptyComponentFails(rows, next, parts[1..], k - 1);
      }
  }

  /** cur + "/" + option is option resolved from the directory that cur names. */
  lemma RelativeDirectory(rows: Table, cur: string, option: string)
    requires cur != "" && option != ""
    ensures DirectoryAt(rows, cur + "/" + option) ==
            match Resolve(rows, ROOT, Split(Tail(cur))) {
              case None => None
              case Some(d) => Resolve(rows, d, Split(DropSlash(option)))
            }
  {
    var whole := cur + "/" + option;
    assert Tail(whole) == Tail(cur) + "/" + option;
    assert DropSlash(Tail(whole)) == Tail(cur) + "/" + DropSlash(option);
    SplitConcat(Tail(cur), DropSlash(option));
    ResolveConcat(rows, ROOT, Split(Tail(cur)), Split(DropSlash(option)));
  }

  lemma FileFromConcat(rows: Table, from: nat, a: seq<string>, b: seq<string>)
    requires |b| >= 1
    ensures FileFrom(rows, from, a + b) ==
            match Resolve(rows, from, a) { case None => None case Some(d) => FileFrom(rows, d, b) }
  {
    assert (a + b)[..|a + b| - 1] == a + b[..|b| - 1];
    ResolveConcat(rows, from, a, b[..|b| - 1]);
  }

  /** The same for a file: cur + "/" + option is option looked up from cur's directory. */
  lemma RelativeFile(rows: Table, cur: string, option: string)
    requires cur != ""
    ensures FileTarget(rows, cur + "/" + option) ==
            match Resolve(rows, ROOT, Split(Tail(cur))) {
              case None => None
              case Some(d) => FileFrom(rows, d, Split(option))
            }
  {
    assert Tail(cur + "/" + option) == Tail(cur) + "/" + option;
    SplitConcat(Tail(cur), option);
    FileFromConcat(rows, ROOT, Split(Tail(cur)), Split(option));
  }

  /** Dropping the one trailing slash of a path that resolves changes nothing, also for later walks. */
  lemma CanonicalPath(rows: Table, path: string)
    requires NonEmptyNames(rows) && DirectoryAt(rows, path).Some?
    ensures DropSlash(path) != ""
    ensures Resolve(rows, ROOT, Split(Tail(DropSlash(path)))) == DirectoryAt(rows, path)
  {
    var inner := DropSlash(Tail(path));
    if inner == "" {
      assert Split(inner)[0] == "";
      EmptyComponentFails(rows, ROOT, Split(inner), 0);
      assert false;
    }
    assert Tail(DropSlash(path)) == inner;
  }

  // ---- The character loops -------------------------------------------------------------

  /** What the database answers to the two SELECTs. Which of several matching rows comes first is its own affair. */
  datatype Database = Database(
    dir: (Table, string, nat) -> Option<nat>,
    file: (Table, string, string, nat) -> Option<nat>)

  ghost predicate Answers(db: Database) {
    && (forall rows, name, parent :: db.dir(rows, name, parent) == FindDir(rows, name, parent))
    && (forall rows, owner, name, parent :: db.file(rows, owner, name, parent) == FindFile(rows, owner, name, parent))
  }

  lemma StepOverSlash(rows: Table, from: nat, dirName: string, rest: string)
    requires '/' !in dirName
    ensures Resolve(rows, from, Split(dirName + "/" + rest)) ==
            match FindDir(rows, dirName, from) { case None => None case Some(d) => Resolve(rows, d, Split(rest)) }
  {
    SplitOne(dirName);
    SplitConcat(dirName, rest);
    assert ([dirName] + Split(rest))[1..] == Split(rest);
  }

  /** The loop and the final lookup of cd and ls. */
  method WalkDirectory(db: Database, rows: Table, path: string) returns (dir: Option<nat>)
    requires Answers(db)
    ensures dir == DirectoryAt(rows, path)
  {
    var i, dirName, preDirId := 1, "", ROOT;
    ghost var goal, found := DropSlash(Tail(path)), DirectoryAt(rows, path);
    assert dirName + goal[i - 1..] == goal;
    while i < |path| && (path[i] != '/' || i + 1 < |path|)
      invariant 1 <= i && i - 1 <= |goal|
      invariant '/' !in dirName
      invariant Resolve(rows, preDirId, Split(dirName + goal[i - 1..])) == found
      decreases |path| - i
    {
      assert goal[i - 1] == path[i];
      Peel(dirName, goal, i - 1);
      if path[i] == '/' {
        StepOverSlash(rows, preDirId, dirName, goal[i..]);
        var row := db.dir(rows, dirName, preDirId);
        if row.None? {
          return None;
        }
        preDirId := row.value;
        dirName := "";
        assert "" + goal[i..] == goal[i..];
      } else {
        dirName := dirName + [path[i]];
      }
      i := i + 1;
    }
    assert dirName + goal[i - 1..] == dirName;
    SplitOne(dirName);
    ResolveOne(rows, preDirId, dirName);
    dir := db.dir(rows, dirName, preDirId);
  }

  lemma FileOverSlash(rows: Table, from: nat, dirName: string, rest: string)
    requires '/' !in dirName
    ensures FileFrom(rows, from, Split(dirName + "/" + rest)) ==
            match FindDir(rows, dirName, from) { case None => None case Some(d) => FileFrom(rows, d, Split(rest)) }
  {
    SplitOne(dirName);
    SplitConcat(dirName, rest);
    ResolveOne(rows, from, dirName);
    FileFromConcat(rows, from, [dirName], Split(rest));
  }

  lemma FileHere(rows: Table, from: nat, name: string)
    requires '/' !in name
    ensures FileFrom(rows, from, Split(name)) == if name == "" then None else Some((from, name))
  {
    SplitOne(name);
    assert [name][..0] == [];
  }

  /** The loop of remove, gets and puts, and the check that the last component is not empty. */
  method WalkFile(db: Database, rows: Table, path: string) returns (target: Option<(nat, string)>)
    requires Answers(db)
    ensures target == FileTarget(rows, path)
  {
    var i, dirName, preDirId := 1, "", ROOT;
    ghost var goal, found := Tail(path), FileTarget(rows, path);
    assert dirName + goal[i - 1..] == goal;
    while i < |path|
      invariant 1 <= i && i - 1 <= |goal|
      invariant '/' !in dirName
      invariant FileFrom(rows, preDirId, Split(dirName + goal[i - 1..])) == found
      decreases |path| - i
    {
      Peel(dirName, goal, i - 1);
      if path[i] == '/' {
        FileOverSlash(rows, preDirId, dirName, goal[i..]);
        var row := db.dir(rows, dirName, preDirId);
        if row.None? {
          return None;
        }
        preDirId := row.value;
        dirName := "";
        assert "" + goal[i..] == goal[i..];
      } else {
        dirName := dirName + [path[i]];
      }
      i := i + 1;
    }
    assert dirName + goal[i - 1..] == dirName;
    FileHere(rows, preDirId, dirName);
    target := if dirName == "" then None else Some((preDirId, dirName));
  }
}
