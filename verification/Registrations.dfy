/**
 When directory names are unique per parent. A registration looks for its name under one lock and
 inserts under another, so two registrations of one unused name can both be accepted; the second
 INSERT of a user fails, the second INSERT of a home directory does not.
 */
module Registrations {
  import opened Options
  import opened Bytes
  import opened PathWalk
  import opened NetDisk

  /** Directories are unique, and the registrations under way are for different, unused names. */
  ghost predicate DirsInv(d: Disk) {
    && UniqueDirs(d.rows)
    && (forall fd :: fd in d.registering ==> d.registering[fd].name !in d.users)
    && (forall a, b :: a in d.registering && b in d.registering && a != b ==>
          d.registering[a].name != d.registering[b].name)
  }

  /** The condition on one step: no registration is accepted while another one of its name is under way. */
  predicate NoRace(d: Disk, a: Action) {
    a.DoRegist? && a.name !in d.users ==> forall fd :: fd in d.registering ==> d.registering[fd].name != a.name
  }

  /** The INSERTs keep directory names unique exactly when the name is no user at that moment. */
  lemma InsertKeepsUniqueExactly(h: Hashes, d: Disk, fd: int)
    requires Inv(d) && UniqueDirs(d.rows) && fd in d.registering
    ensures UniqueDirs(RegistEnd(h, d, fd).rows) <==> d.registering[fd].name !in d.users
  {
    var after, name := RegistEnd(h, d, fd).rows, d.registering[fd].name;
    assert RowOk(d.users, d.rows, d.nextId, d.nextId);
    if name in d.users {
      var home := FindDir(d.rows, name, ROOT).value;
      assert IsDirNamed(after, home, name, ROOT) && IsDirNamed(after, d.nextId, name, ROOT);
    } else {
      forall id ensures !IsDirNamed(d.rows, id, name, ROOT) {
        assert RowOk(d.users, d.rows, d.nextId, id);
      }
      forall a, b, n, p | IsDirNamed(after, a, n, p) && IsDirNamed(after, b, n, p) ensures a == b {
        assert a != d.nextId ==> IsDirNamed(d.rows, a, n, p);
        assert b != d.nextId ==> IsDirNamed(d.rows, b, n, p);
      }
    }
  }

  lemma SameDirsUnique(rows: Table, after: Table)
    requires UniqueDirs(rows)
    requires forall id :: id in after && after[id].isDir ==> id in rows && rows[id] == after[id]
    ensures UniqueDirs(after)
  {
    forall a, b, n, p | IsDirNamed(after, a, n, p) && IsDirNamed(after, b, n, p) ensures a == b {
      assert IsDirNamed(rows, a, n, p) && IsDirNamed(rows, b, n, p);
    }
  }

  /** Only the INSERTs of a registration add a directory. */
  lemma NoOtherDirs(h: Hashes, d: Disk, a: Action)
    requires Allowed(h, d, a) && !a.EndRegist?
    ensures var after := Apply(h, d, a).rows;
            forall id :: id in after && after[id].isDir ==> id in d.rows && d.rows[id] == after[id]
  {
    if !a.EndRemove? && !a.EndPuts? {
      OtherTables(h, d, a);
    }
  }

  lemma EndRegistKeepsDirs(h: Hashes, d: Disk, fd: int)
    requires Inv(d) && DirsInv(d) && fd in d.registering
    ensures DirsInv(RegistEnd(h, d, fd))
  {
    InsertKeepsUniqueExactly(h, d, fd);
  }

  lemma NoOtherNames(h: Hashes, d: Disk, a: Action)
    requires Allowed(h, d, a) && !a.EndRegist? && !a.DoRegist?
    ensures Apply(h, d, a).registering == d.registering && Apply(h, d, a).users == d.users
  {
    if a.Connect? || a.Disconnect? || a.DoCd? || a.DoLogin? {
      SessionSteps(h, d, a);
    } else {
      NotingSteps(h, d, a);
    }
  }

  lemma RegistBeginKeepsDirs(d: Disk, a: Action)
    requires DirsInv(d) && a.DoRegist? && NoRace(d, a)
    ensures DirsInv(RegistBegin(d, a.fd, a.name, a.salt, a.code).0)
  {
  }

  lemma StepKeepsDirs(h: Hashes, d: Disk, a: Action)
    requires Inv(d) && DirsInv(d) && Allowed(h, d, a) && NoRace(d, a)
    ensures DirsInv(Apply(h, d, a))
  {
    if a.EndRegist? {
      EndRegistKeepsDirs(h, d, a.fd);
    } else if a.DoRegist? {
      RegistBeginKeepsDirs(d, a);
    } else {
      NoOtherDirs(h, d, a);
      NoOtherNames(h, d, a);
      SameDirsUnique(d.rows, Apply(h, d, a).rows);
    }
  }

  ghost predicate NoRaceRun(h: Hashes, d: Disk, run: seq<Action>)
    requires CanRun(h, d, run)
    decreases |run|
  {
    run == [] || (NoRace(d, run[0]) && NoRaceRun(h, Apply(h, d, run[0]), run[1..]))
  }

  /** Directory names stay unique over every run without such a race. */
  lemma {:induction false} RunKeepsDirs(h: Hashes, d: Disk, run: seq<Action>)
    requires Inv(d) && DirsInv(d) && CanRun(h, d, run) && NoRaceRun(h, d, run)
    ensures DirsInv(Run(h, d, run))
    decreases |run|
  {
    if run != [] {
      StepKeepsInv(h, d, run[0]);
      StepKeepsDirs(h, d, run[0]);
      RunKeepsDirs(h, Apply(h, d, run[0]), run[1..]);
    }
  }

  // ---- When a registration may be accepted -----------------------------------------------------

  predicate NoRegist(run: seq<Action>) { forall k :: 0 <= k < |run| ==> !run[k].DoRegist? }

  /** Whatever happens next, short of accepting more registrations, directories stay unique. */
  ghost predicate DirsSafe(h: Hashes, d: Disk) {
    forall run :: CanRun(h, d, run) && NoRegist(run) ==> UniqueDirs(Run(h, d, run).rows)
  }

  lemma {:induction false} NoRegistNoRace(h: Hashes, d: Disk, run: seq<Action>)
    requires CanRun(h, d, run) && NoRegist(run)
    ensures NoRaceRun(h, d, run)
    decreases |run|
  {
    if run != [] {
      NoRegistNoRace(h, Apply(h, d, run[0]), run[1..]);
    }
  }

  /** Two registrations of one name that are both under way can both insert a directory. */
  lemma BothInsert(h: Hashes, d: Disk, a: int, b: int) returns (run: seq<Action>)
    requires Inv(d) && a != b && a in d.registering && b in d.registering
    requires d.registering[a].name == d.registering[b].name
    ensures CanRun(h, d, run) && NoRegist(run) && !UniqueDirs(Run(h, d, run).rows)
  {
    var one := RegistEnd(h, d, a);
    StepKeepsInv(h, d, EndRegist(a));
    assert b in one.registering && one.registering[b] == d.registering[b];
    var two := RegistEnd(h, one, b);
    RunOne(h, d, EndRegist(a));
    RunOne(h, one, EndRegist(b));
    RunConcat(h, d, [EndRegist(a)], [EndRegist(b)]);
    run := [EndRegist(a)] + [EndRegist(b)];
    var name := d.registering[a].name;
    assert IsDirNamed(two.rows, d.nextId, name, ROOT) && IsDirNamed(two.rows, one.nextId, name, ROOT);
  }

  /**
   Exactly when accepting a registration keeps directory names unique, whatever happens next: when no
   other registration of that name is under way.
   */
  lemma RegistExactly(h: Hashes, d: Disk, a: Action)
    requires Inv(d) && DirsInv(d) && a.DoRegist? && Allowed(h, d, a) && a.name !in d.users
    ensures NoRace(d, a) <==> DirsSafe(h, Apply(h, d, a))
  {
    var after := Apply(h, d, a);
    StepKeepsInv(h, d, a);
    if NoRace(d, a) {
      StepKeepsDirs(h, d, a);
      forall run | CanRun(h, after, run) && NoRegist(run) ensures UniqueDirs(Run(h, after, run).rows) {
        NoRegistNoRace(h, after, run);
        RunKeepsDirs(h, after, run);
      }
    } else {
      var fd :| fd in d.registering && d.registering[fd].name == a.name;
      assert fd != a.fd && after.registering[fd] == d.registering[fd];
      var run := BothInsert(h, after, fd, a.fd);
    }
  }
}
