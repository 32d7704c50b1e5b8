/**
 Files of the whole disk. Two uploads that are in progress at the same time disturb each other when
 they go to the same file of the same user (both find it absent, both insert a row) or have the
 same digest and the store does not hold all of that content yet (both write to one file). When no
 upload is accepted while such another one is running, files are unique per owner, name and
 directory, and every stored file is a beginning of the one content that has its digest.
 */
module NetDiskFiles {
  import opened Options
  import opened Bytes
  import opened PathWalk
  import opened NetDisk

  predicate SameTarget(u: Upload, v: Upload) {
    u.owner == v.owner && u.fileName == v.fileName && u.parent == v.parent
  }

  /** The store holds as many bytes as the upload's content has; a missing file holds none. */
  predicate Whole(d: Disk, u: Upload) {
    |Opened(d.store, u.digest)[u.digest]| >= |u.content|
  }

  /** The admission condition on one step: an accepted upload overlaps no upload it could disturb. */
  ghost predicate NoOverlap(h: Hashes, d: Disk, a: Action)
    requires Allowed(h, d, a)
  {
    a.DoPuts? ==>
      var after := Apply(h, d, a);
      a.fd in after.uploads ==>
        forall fd :: fd in d.uploads ==>
          && !SameTarget(d.uploads[fd], after.uploads[a.fd])
          && (d.uploads[fd].digest != a.digest || Whole(d, after.uploads[a.fd]))
  }

  /** Every stored file holds the beginning of the one content that has its digest. */
  ghost predicate StoreInv(h: Hashes, store: map<string, seq<byte>>) {
    forall c: seq<byte> :: h.md5(c) in store ==> store[h.md5(c)] <= c
  }

  ghost predicate UploadOk(h: Hashes, d: Disk, fd: int)
    requires fd in d.uploads
  {
    var u := d.uploads[fd];
    && u.digest == h.md5(u.content)
    && (u.isOpen ==> u.digest in d.store && u.pos == |d.store[u.digest]| <= |u.content|)
    && FindFile(d.rows, u.owner, u.fileName, u.parent) == None
  }

  ghost predicate UploadsApart(d: Disk) {
    forall a, b :: a in d.uploads && b in d.uploads && a != b ==>
      && !SameTarget(d.uploads[a], d.uploads[b])
      && (d.uploads[a].digest != d.uploads[b].digest || Whole(d, d.uploads[a]))
  }

  ghost predicate FilesInv(h: Hashes, d: Disk) {
    && UniqueFiles(d.rows)
    && StoreInv(h, d.store)
    && (forall fd :: fd in d.uploads ==> UploadOk(h, d, fd))
    && UploadsApart(d)
  }

  lemma NoFileKept(rows: Table, after: Table, owner: string, name: string, parent: nat)
    requires FindFile(rows, owner, name, parent) == None
    requires forall id :: IsFileOf(after, id, owner, name, parent) ==> IsFileOf(rows, id, owner, name, parent)
    ensures FindFile(after, owner, name, parent) == None
  {
  }

  /** Steps that add no file and touch neither store nor uploads. */
  lemma FewerFilesKeep(h: Hashes, d: Disk, after: Disk)
    requires FilesInv(h, d) && after.store == d.store && after.uploads == d.uploads
    requires forall id, o, n, p :: IsFileOf(after.rows, id, o, n, p) ==> IsFileOf(d.rows, id, o, n, p)
    ensures FilesInv(h, after)
  {
    forall a, b, o, n, p | IsFileOf(after.rows, a, o, n, p) && IsFileOf(after.rows, b, o, n, p) ensures a == b {
      assert IsFileOf(d.rows, a, o, n, p) && IsFileOf(d.rows, b, o, n, p);
    }
    forall k | k in after.uploads ensures UploadOk(h, after, k) {
      assert UploadOk(h, d, k);
      var u := d.uploads[k];
      NoFileKept(d.rows, after.rows, u.owner, u.fileName, u.parent);
    }
  }

  lemma RegistKeepsFiles(h: Hashes, d: Disk, fd: int)
    requires Inv(d) && FilesInv(h, d) && fd in d.registering
    ensures FilesInv(h, RegistEnd(h, d, fd))
  {
    assert RowOk(d.users, d.rows, d.nextId, d.nextId);
    FewerFilesKeep(h, d, RegistEnd(h, d, fd));
  }

  lemma UploadAdded(h: Hashes, d: Disk, fd: int, u: Upload)
    requires FilesInv(h, d) && fd !in d.uploads && Injective(h.md5)
    requires u.digest == h.md5(u.content) && !u.isOpen && FindFile(d.rows, u.owner, u.fileName, u.parent) == None
    requires forall k :: k in d.uploads ==>
               !SameTarget(d.uploads[k], u) && (d.uploads[k].digest != u.digest || Whole(d, u))
    ensures FilesInv(h, d.(uploads := d.uploads[fd := u]))
  {
    var after := d.(uploads := d.uploads[fd := u]);
    forall k | k in after.uploads ensures UploadOk(h, after, k) {
      assert k != fd ==> UploadOk(h, d, k);
    }
    forall k, l | k in after.uploads && l in after.uploads && k != l
      ensures after.uploads[k].digest != after.uploads[l].digest || Whole(after, after.uploads[k])
    {
      assert k != fd ==> UploadOk(h, d, k);
    }
  }

  lemma PutsBeginKeepsFiles(h: Hashes, d: Disk, a: Action)
    requires FilesInv(h, d) && a.DoPuts? && Allowed(h, d, a) && NoOverlap(h, d, a) && Injective(h.md5)
    ensures FilesInv(h, Apply(h, d, a))
  {
    var after := Apply(h, d, a);
    if a.fd in after.uploads {
      UploadAdded(h, d, a.fd, after.uploads[a.fd]);
    }
  }

  lemma PutsOpenKeepsFiles(h: Hashes, d: Disk, fd: int)
    requires FilesInv(h, d) && fd in d.uploads && !d.uploads[fd].isOpen && Injective(h.md5)
    ensures FilesInv(h, PutsOpen(d, fd))
  {
    var after, u := PutsOpen(d, fd), d.uploads[fd];
    assert UploadOk(h, d, fd);
    assert after.store[u.digest] <= u.content;
    forall k | k in after.uploads ensures UploadOk(h, after, k) {
      assert UploadOk(h, d, k);
    }
  }

  lemma ChunkKeepsFiles(h: Hashes, d: Disk, fd: int, n: nat)
    requires FilesInv(h, d) && Receiving(d, fd, n) && Injective(h.md5)
    ensures FilesInv(h, PutsChunk(d, fd, n))
  {
    var after, u := PutsChunk(d, fd, n), d.uploads[fd];
    assert UploadOk(h, d, fd);
    assert d.store[u.digest] <= u.content;
    AtTheEnd(d.store[u.digest], u, u.content[u.pos..u.pos + n]);
    assert after.store[u.digest] == u.content[..u.pos + n];
    forall c: seq<byte> | h.md5(c) in after.store ensures after.store[h.md5(c)] <= c {
      if h.md5(c) == u.digest {
        assert c == u.content;
      }
    }
    forall k | k in after.uploads ensures UploadOk(h, after, k) {
      assert UploadOk(h, d, k);
    }
  }

  /**
   The row that ends an upload keeps files unique exactly when no file of that name is there:
   the check at the beginning of puts decides, unless another upload to the same name ended since.
   */
  lemma EndKeepsUniqueExactly(d: Disk, fd: int)
    requires Inv(d) && UniqueFiles(d.rows) && fd in d.uploads && d.uploads[fd].owner in d.users
    ensures UniqueFiles(PutsEnd(d, fd).rows) <==>
            FindFile(d.rows, d.uploads[fd].owner, d.uploads[fd].fileName, d.uploads[fd].parent) == None
  {
    var after, u := PutsEnd(d, fd), d.uploads[fd];
    assert RowOk(d.users, d.rows, d.nextId, d.nextId);
    var found := FindFile(d.rows, u.owner, u.fileName, u.parent);
    if found.Some? {
      assert IsFileOf(after.rows, found.value, u.owner, u.fileName, u.parent);
      assert IsFileOf(after.rows, d.nextId, u.owner, u.fileName, u.parent);
    } else {
      forall a, b, o, n, p | IsFileOf(after.rows, a, o, n, p) && IsFileOf(after.rows, b, o, n, p) ensures a == b {
        assert a != d.nextId ==> IsFileOf(d.rows, a, o, n, p);
        assert b != d.nextId ==> IsFileOf(d.rows, b, o, n, p);
      }
    }
  }

  lemma PutsEndKeepsFiles(h: Hashes, d: Disk, fd: int)
    requires Inv(d) && FilesInv(h, d) && fd in d.uploads
    ensures FilesInv(h, PutsEnd(d, fd))
  {
    var after, u := PutsEnd(d, fd), d.uploads[fd];
    assert UploadOk(h, d, fd);
    if u.owner in d.users {
      EndKeepsUniqueExactly(d, fd);
    }
    forall k | k in after.uploads ensures UploadOk(h, after, k) {
      assert UploadOk(h, d, k) && !SameTarget(d.uploads[k], u);
      var v := d.uploads[k];
      NoFileKept(d.rows, after.rows, v.owner, v.fileName, v.parent);
    }
  }

  lemma OtherSteps(h: Hashes, d: Disk, a: Action)
    requires Allowed(h, d, a)
    requires !a.EndRegist? && !a.DoPuts? && !a.OpenPuts? && !a.Chunk? && !a.EndPuts?
    ensures var after := Apply(h, d, a);
            && after.store == d.store && after.uploads == d.uploads
            && forall id, o, n, p :: IsFileOf(after.rows, id, o, n, p) ==> IsFileOf(d.rows, id, o, n, p)
  {
  }

  lemma StepKeepsFiles(h: Hashes, d: Disk, a: Action)
    requires Inv(d) && FilesInv(h, d) && Injective(h.md5) && Allowed(h, d, a) && NoOverlap(h, d, a)
    ensures FilesInv(h, Apply(h, d, a))
  {
    match a
    case EndRegist(fd) => RegistKeepsFiles(h, d, fd);
    case DoPuts(_, _, _, _) => PutsBeginKeepsFiles(h, d, a);
    case OpenPuts(fd) => PutsOpenKeepsFiles(h, d, fd);
    case Chunk(fd, n) => ChunkKeepsFiles(h, d, fd, n);
    case EndPuts(fd) => PutsEndKeepsFiles(h, d, fd);
    case _ =>
      OtherSteps(h, d, a);
      FewerFilesKeep(h, d, Apply(h, d, a));
  }

  // ---- Whole runs ------------------------------------------------------------------------

  ghost predicate NoOverlapRun(h: Hashes, d: Disk, run: seq<Action>)
    requires CanRun(h, d, run)
    decreases |run|
  {
    run == [] || (NoOverlap(h, d, run[0]) && NoOverlapRun(h, Apply(h, d, run[0]), run[1..]))
  }

  lemma {:induction false} RunKeepsFiles(h: Hashes, d: Disk, run: seq<Action>)
    requires Inv(d) && FilesInv(h, d) && Injective(h.md5) && CanRun(h, d, run) && NoOverlapRun(h, d, run)
    ensures Inv(Run(h, d, run)) && FilesInv(h, Run(h, d, run))
    decreases |run|
  {
    if run != [] {
      StepKeepsInv(h, d, run[0]);
      StepKeepsFiles(h, d, run[0]);
      RunKeepsFiles(h, Apply(h, d, run[0]), run[1..]);
    }
  }

  /** The seed state has its files in order when its store has. */
  lemma SeedFiles(h: Hashes, salt: string -> string, code: string -> string, store: map<string, seq<byte>>)
    requires SEED_DIGEST in store && StoreInv(h, store)
    ensures Inv(Seed(salt, code, store)) && FilesInv(h, Seed(salt, code, store))
  {
    SeedInv(salt, code, store);
    SeedTree(Seed(salt, code, store).users);
  }
}
