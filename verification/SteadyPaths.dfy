/**
 Paths that go on leading where they lead. A directory row is never removed, so a path can only come
 to lead elsewhere when a lookup on it gets a second row to answer with; and that can only come from
 a registration that was accepted before the directory on the path was there.
 */
module SteadyPaths {
  import opened Options
  import opened Bytes
  import opened PathWalk
  import opened NetDisk

  /** Each lookup has one answer, and no registration under way will give it a second. */
  ghost predicate Steady(d: Disk, from: nat, parts: seq<string>)
    decreases |parts|
  {
    parts == [] ||
    match FindDir(d.rows, parts[0], from)
    case None => false
    case Some(next) =>
      && (forall id :: IsDirNamed(d.rows, id, parts[0], from) ==> id == next)
      && (from == ROOT ==> forall fd :: fd in d.registering ==> d.registering[fd].name != parts[0])
      && Steady(d, next, parts[1..])
  }

  ghost predicate SteadyPath(d: Disk, path: string) {
    FileTarget(d.rows, path).Some? && Steady(d, ROOT, DirParts(path))
  }

  /** Only the INSERTs of a registration add a directory, below the root and of the registered name. */
  lemma StepAddsDirs(h: Hashes, d: Disk, a: Action)
    requires Inv(d) && Allowed(h, d, a)
    ensures var after := Apply(h, d, a).rows;
            && DirsKept(d.rows, after)
            && forall id :: id in after && after[id].isDir && id !in d.rows ==>
                 a.EndRegist? && after[id].parent == ROOT && after[id].fileName == d.registering[a.fd].name
  {
    assert RowOk(d.users, d.rows, d.nextId, d.nextId);
    if !a.EndRegist? && !a.EndRemove? && !a.EndPuts? {
      OtherTables(h, d, a);
    }
  }

  /** A registration is accepted for names only that are no users. */
  lemma StepAddsNames(h: Hashes, d: Disk, a: Action)
    requires Allowed(h, d, a)
    ensures forall fd :: fd in Apply(h, d, a).registering ==>
              || (fd in d.registering && Apply(h, d, a).registering[fd] == d.registering[fd])
              || Apply(h, d, a).registering[fd].name !in d.users
  {
  }

  lemma {:induction false} StepKeepsSteady(h: Hashes, d: Disk, a: Action, from: nat, parts: seq<string>)
    requires Inv(d) && Allowed(h, d, a) && Steady(d, from, parts)
    ensures Steady(Apply(h, d, a), from, parts)
    ensures Resolve(Apply(h, d, a).rows, from, parts) == Resolve(d.rows, from, parts)
    decreases |parts|
  {
    if parts != [] {
      var next := FindDir(d.rows, parts[0], from).value;
      StepKeepsLookup(h, d, a, from, parts[0], next);
      StepKeepsSteady(h, d, a, next, parts[1..]);
    }
  }

  lemma StepKeepsLookup(h: Hashes, d: Disk, a: Action, from: nat, name: string, next: nat)
    requires Inv(d) && Allowed(h, d, a) && IsDirNamed(d.rows, next, name, from)
    requires forall id :: IsDirNamed(d.rows, id, name, from) ==> id == next
    requires from == ROOT ==> forall fd :: fd in d.registering ==> d.registering[fd].name != name
    ensures var after := Apply(h, d, a);
            && FindDir(after.rows, name, from) == Some(next)
            && (forall id :: IsDirNamed(after.rows, id, name, from) ==> id == next)
            && (from == ROOT ==> forall fd :: fd in after.registering ==> after.registering[fd].name != name)
  {
    var after := Apply(h, d, a);
    StepAddsDirs(h, d, a);
    StepAddsNames(h, d, a);
    RowsKept(h, d, a);
    assert RowOk(d.users, d.rows, d.nextId, next);
    forall id | id in after.rows && after.rows[id].isDir && id !in d.rows
      ensures after.rows[id].parent != from || after.rows[id].fileName != name
    {
    }
    LookupStays(d.rows, after.rows, name, from, next);
  }

  lemma LookupStays(rows: Table, after: Table, name: string, from: nat, next: nat)
    requires IsDirNamed(rows, next, name, from) && DirsKept(rows, after)
    requires forall id :: IsDirNamed(rows, id, name, from) ==> id == next
    requires forall id :: id in rows && id in after ==> after[id] == rows[id]
    requires forall id :: id in after && after[id].isDir && id !in rows ==>
               after[id].parent != from || after[id].fileName != name
    ensures FindDir(after, name, from) == Some(next)
    ensures forall id :: IsDirNamed(after, id, name, from) ==> id == next
  {
    assert IsDirNamed(after, next, name, from);
    forall id | IsDirNamed(after, id, name, from) ensures id == next {
      assert id in rows && IsDirNamed(rows, id, name, from);
    }
  }

  /** A step changes no row. */
  lemma RowsKept(h: Hashes, d: Disk, a: Action)
    requires Inv(d) && Allowed(h, d, a)
    ensures forall id :: id in d.rows && id in Apply(h, d, a).rows ==> Apply(h, d, a).rows[id] == d.rows[id]
  {
    assert RowOk(d.users, d.rows, d.nextId, d.nextId);
    if !a.EndRegist? && !a.EndRemove? && !a.EndPuts? {
      OtherTables(h, d, a);
    }
  }

  /** A steady path leads to the same place in every run. */
  lemma {:induction false} RunKeepsSteady(h: Hashes, d: Disk, run: seq<Action>, from: nat, parts: seq<string>)
    requires Inv(d) && CanRun(h, d, run) && Steady(d, from, parts)
    ensures Steady(Run(h, d, run), from, parts)
    ensures Resolve(Run(h, d, run).rows, from, parts) == Resolve(d.rows, from, parts)
    decreases |run|
  {
    if run != [] {
      StepKeepsInv(h, d, run[0]);
      StepKeepsSteady(h, d, run[0], from, parts);
      RunKeepsSteady(h, Apply(h, d, run[0]), run[1..], from, parts);
    }
  }

  lemma RunKeepsTarget(h: Hashes, d: Disk, run: seq<Action>, path: string)
    requires Inv(d) && CanRun(h, d, run) && SteadyPath(d, path)
    ensures SteadyPath(Run(h, d, run), path)
    ensures FileTarget(Run(h, d, run).rows, path) == FileTarget(d.rows, path)
  {
    RunKeepsSteady(h, d, run, ROOT, DirParts(path));
  }

  // ---- Exactly which paths are steady -------------------------------------------------------------

  ghost predicate OneAnswerAlways(h: Hashes, d: Disk, from: nat, parts: seq<string>) {
    forall run :: CanRun(h, d, run) ==> OneAnswer(Run(h, d, run).rows, from, parts)
  }

  lemma {:induction false} SteadyOneAnswer(d: Disk, from: nat, parts: seq<string>)
    requires Steady(d, from, parts)
    ensures OneAnswer(d.rows, from, parts)
    decreases |parts|
  {
    if parts != [] {
      SteadyOneAnswer(d, FindDir(d.rows, parts[0], from).value, parts[1..]);
    }
  }

  lemma {:induction false} RunKeepsDirs(h: Hashes, d: Disk, run: seq<Action>)
    requires Inv(d) && CanRun(h, d, run)
    ensures DirsKept(d.rows, Run(h, d, run).rows)
    decreases |run|
  {
    if run != [] {
      StepKeepsInv(h, d, run[0]);
      StepAddsDirs(h, d, run[0]);
      RunKeepsDirs(h, Apply(h, d, run[0]), run[1..]);
    }
  }

  /** A registration under way for a name on the path inserts a second directory of that name. */
  lemma SecondAnswer(h: Hashes, d: Disk, fd: int, next: nat)
    requires Inv(d) && fd in d.registering && IsDirNamed(d.rows, next, d.registering[fd].name, ROOT)
    ensures var rows, name := RegistEnd(h, d, fd).rows, d.registering[fd].name;
            next != d.nextId && IsDirNamed(rows, next, name, ROOT) && IsDirNamed(rows, d.nextId, name, ROOT)
  {
    assert RowOk(d.users, d.rows, d.nextId, next);
  }

  lemma {:induction false} Unsteady(h: Hashes, d: Disk, from: nat, parts: seq<string>) returns (run: seq<Action>)
    requires Inv(d) && Resolve(d.rows, from, parts).Some? && !Steady(d, from, parts)
    ensures CanRun(h, d, run) && !OneAnswer(Run(h, d, run).rows, from, parts)
    decreases |parts|
  {
    var name := parts[0];
    var next := FindDir(d.rows, name, from).value;
    if id :| IsDirNamed(d.rows, id, name, from) && id != next {
      run := [];
    } else if fd :| from == ROOT && fd in d.registering && d.registering[fd].name == name {
      run := [EndRegist(fd)];
      RunOne(h, d, EndRegist(fd));
      SecondAnswer(h, d, fd, next);
      assert FindDir(Run(h, d, run).rows, name, ROOT).Some?;
    } else {
      run := Unsteady(h, d, next, parts[1..]);
      RunKeepsDirs(h, d, run);
      assert IsDirNamed(Run(h, d, run).rows, next, name, from);
    }
  }

  /**
   Exactly when no run can make a lookup on a path ambiguous: when none is, and no registration under way
   is for the name of the directory below the root that the path leads through.
   */
  lemma SteadyExactly(h: Hashes, d: Disk, from: nat, parts: seq<string>)
    requires Inv(d) && Resolve(d.rows, from, parts).Some?
    ensures Steady(d, from, parts) <==> OneAnswerAlways(h, d, from, parts)
  {
    if Steady(d, from, parts) {
      forall run | CanRun(h, d, run) ensures OneAnswer(Run(h, d, run).rows, from, parts) {
        RunKeepsSteady(h, d, run, from, parts);
        SteadyOneAnswer(Run(h, d, run), from, parts);
      }
    } else {
      var run := Unsteady(h, d, from, parts);
    }
  }
}
