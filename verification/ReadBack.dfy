/**
 What a user gets back of one file. Everything here is about one content c and one place (an owner,
 a name and a directory); what other users do with other contents and other places is not restricted.
 Whichever of several matching rows the database answers with, the place is read back as c when
 every such row names the digest of c and the store holds c under it.
 */
module ReadBack {
  import opened Options
  import opened Bytes
  import opened PathWalk
  import opened NetDisk

  // ---- Digests are honest --------------------------------------------------------------------

  ghost predicate Honest(h: Hashes, d: Disk) {
    forall fd :: fd in d.uploads ==> d.uploads[fd].digest == h.md5(d.uploads[fd].content)
  }

  ghost predicate Sound(h: Hashes, d: Disk) { Inv(d) && Honest(h, d) }

  lemma StepKeepsHonest(h: Hashes, d: Disk, a: Action)
    requires Honest(h, d) && Allowed(h, d, a)
    ensures Honest(h, Apply(h, d, a))
  {
    if !a.DoPuts? && !a.OpenPuts? && !a.Chunk? && !a.EndPuts? {
      OtherUploads(h, d, a);
    }
  }

  lemma StepKeepsSound(h: Hashes, d: Disk, a: Action)
    requires Sound(h, d) && Allowed(h, d, a)
    ensures Sound(h, Apply(h, d, a))
  {
    StepKeepsInv(h, d, a);
    StepKeepsHonest(h, d, a);
  }

  lemma {:induction false} RunKeepsSound(h: Hashes, d: Disk, run: seq<Action>)
    requires Sound(h, d) && CanRun(h, d, run)
    ensures Sound(h, Run(h, d, run))
    decreases |run|
  {
    if run != [] {
      StepKeepsSound(h, d, run[0]);
      RunKeepsSound(h, Apply(h, d, run[0]), run[1..]);
    }
  }

  // ---- The rows of one place -------------------------------------------------------------------

  predicate Targets(u: Upload, owner: string, name: string, parent: nat) {
    u.owner == owner && u.fileName == name && u.parent == parent
  }

  /** Rows of the place, and uploads to it, are of content c. */
  ghost predicate Reserved(h: Hashes, d: Disk, owner: string, name: string, parent: nat, c: seq<byte>) {
    && (forall id :: IsFileOf(d.rows, id, owner, name, parent) ==> d.rows[id].md5 == h.md5(c))
    && (forall fd :: fd in d.uploads && Targets(d.uploads[fd], owner, name, parent) ==>
          d.uploads[fd].digest == h.md5(c))
  }

  /** A row of the place that nobody is about to delete. */
  ghost predicate Lasting(d: Disk, id: nat, owner: string, name: string, parent: nat) {
    IsFileOf(d.rows, id, owner, name, parent) && forall fd :: fd in d.removing ==> d.removing[fd] != id
  }

  /** The place is of content c, and there is something there. */
  ghost predicate Named(h: Hashes, d: Disk, owner: string, name: string, parent: nat, c: seq<byte>) {
    Reserved(h, d, owner, name, parent, c) && exists id :: Lasting(d, id, owner, name, parent)
  }

  /** The step accepts an upload of something else to the place. */
  ghost predicate Claims(
    h: Hashes, d: Disk, a: Action, owner: string, name: string, parent: nat, c: seq<byte>)
    requires Allowed(h, d, a)
  {
    a.DoPuts? && a.digest != h.md5(c) &&
    var after := Apply(h, d, a);
    a.fd in after.uploads && Targets(after.uploads[a.fd], owner, name, parent)
  }

  /** The step is a remove, by that user, of that file. */
  ghost predicate Removes(d: Disk, a: Action, owner: string, name: string, parent: nat) {
    && a.DoRemove? && a.fd in d.sessions && d.sessions[a.fd].name == owner
    && FileTarget(d.rows, ShellPath(d.sessions[a.fd], a.option)) == Some((parent, name))
  }

  lemma EndKeepsReserved(
    h: Hashes, d: Disk, fd: int, owner: string, name: string, parent: nat, c: seq<byte>)
    requires Reserved(h, d, owner, name, parent, c) && fd in d.uploads
    ensures Reserved(h, PutsEnd(d, fd), owner, name, parent, c)
  {
    var after := PutsEnd(d, fd);
    forall id | IsFileOf(after.rows, id, owner, name, parent) ensures after.rows[id].md5 == h.md5(c) {
      assert IsFileOf(d.rows, id, owner, name, parent) || Targets(d.uploads[fd], owner, name, parent);
    }
  }

  lemma StepKeepsReserved(
    h: Hashes, d: Disk, a: Action, owner: string, name: string, parent: nat, c: seq<byte>)
    requires Reserved(h, d, owner, name, parent, c) && Allowed(h, d, a)
    requires !Claims(h, d, a, owner, name, parent, c)
    ensures Reserved(h, Apply(h, d, a), owner, name, parent, c)
  {
    if a.EndPuts? {
      EndKeepsReserved(h, d, a.fd, owner, name, parent, c);
    } else {
      NoNewFiles(h, d, a);
      UploadsOf(h, d, a);
    }
  }

  /** Only the end of an upload adds a file row. */
  lemma NoNewFiles(h: Hashes, d: Disk, a: Action)
    requires Allowed(h, d, a) && !a.EndPuts?
    ensures var after := Apply(h, d, a).rows;
            forall id :: id in after && !after[id].isDir ==> id in d.rows && d.rows[id] == after[id]
  {
    if !a.EndRegist? && !a.EndRemove? {
      OtherTables(h, d, a);
    }
  }

  /** What an upload is apart from how far it has come. */
  function Facts(u: Upload): Upload { u.(isOpen := false, creator := false, pos := 0) }

  /** It does not change; a new one is that of the step. */
  lemma UploadsOf(h: Hashes, d: Disk, a: Action)
    requires Allowed(h, d, a)
    ensures forall fd :: fd in Apply(h, d, a).uploads ==>
              if fd in d.uploads then Facts(Apply(h, d, a).uploads[fd]) == Facts(d.uploads[fd])
              else a.DoPuts? && fd == a.fd && Apply(h, d, a).uploads[fd].digest == a.digest
  {
    if !a.DoPuts? && !a.OpenPuts? && !a.Chunk? && !a.EndPuts? {
      OtherUploads(h, d, a);
    }
  }

  /** Where a row is, no upload is accepted, so a place that has one keeps it until it is removed. */
  lemma StepKeepsNamed(
    h: Hashes, d: Disk, a: Action, owner: string, name: string, parent: nat, c: seq<byte>)
    requires Sound(h, d) && Named(h, d, owner, name, parent, c) && Allowed(h, d, a)
    requires !Removes(d, a, owner, name, parent)
    ensures Named(h, Apply(h, d, a), owner, name, parent, c)
  {
    var id :| Lasting(d, id, owner, name, parent);
    NotClaimed(h, d, a, id, owner, name, parent, c);
    StepKeepsReserved(h, d, a, owner, name, parent, c);
    assert RowOk(d.users, d.rows, d.nextId, id);
    StepKeepsRow(h, d, a, id, owner, name, parent);
  }

  lemma NotClaimed(
    h: Hashes, d: Disk, a: Action, id: nat, owner: string, name: string, parent: nat, c: seq<byte>)
    requires Allowed(h, d, a) && IsFileOf(d.rows, id, owner, name, parent)
    requires Reserved(h, d, owner, name, parent, c)
    ensures !Claims(h, d, a, owner, name, parent, c)
  {
  }

  lemma StepKeepsRow(h: Hashes, d: Disk, a: Action, id: nat, owner: string, name: string, parent: nat)
    requires id != d.nextId && Allowed(h, d, a) && Lasting(d, id, owner, name, parent)
    requires !Removes(d, a, owner, name, parent)
    ensures Lasting(Apply(h, d, a), id, owner, name, parent)
  {
    if a.DoRemove? {
      RemoveKeepsRow(d, a.fd, a.option, id, owner, name, parent);
    } else if a.EndRemove? {
      DeleteKeepsRow(d, a.fd, id, owner, name, parent);
    } else {
      OtherRemovals(h, d, a);
      if !a.EndRegist? && !a.EndPuts? {
        OtherTables(h, d, a);
      }
    }
  }

  lemma DeleteKeepsRow(d: Disk, fd: int, id: nat, owner: string, name: string, parent: nat)
    requires fd in d.removing && Lasting(d, id, owner, name, parent)
    ensures Lasting(RemoveEnd(d, fd), id, owner, name, parent)
  {
  }

  lemma RemoveKeepsRow(d: Disk, fd: int, option: string, id: nat, owner: string, name: string, parent: nat)
    requires fd in d.sessions && Lasting(d, id, owner, name, parent)
    requires !(d.sessions[fd].name == owner
               && FileTarget(d.rows, ShellPath(d.sessions[fd], option)) == Some((parent, name)))
    ensures Lasting(RemoveBegin(d, fd, option).0, id, owner, name, parent)
  {
  }

  // ---- One content of the store -------------------------------------------------------------------

  /** Nothing is left to receive. */
  predicate Complete(u: Upload) { u.pos >= |u.content| }

  /** The upload has the store's file of c open. */
  predicate Feeds(h: Hashes, u: Upload, c: seq<byte>) { u.isOpen && u.digest == h.md5(c) }

  /**
   The store holds all of c, and no upload will append to it: one may still be unfinished that created the
   file, and that one replaces right bytes by the same bytes.
   */
  ghost predicate Held(h: Hashes, d: Disk, c: seq<byte>) {
    && h.md5(c) in d.store && d.store[h.md5(c)] == c
    && forall fd :: fd in d.uploads && Feeds(h, d.uploads[fd], c) ==> Complete(d.uploads[fd]) || d.uploads[fd].creator
  }

  ghost predicate OthersComplete(h: Hashes, d: Disk, fd: int, c: seq<byte>) {
    forall k :: k in d.uploads && k != fd && Feeds(h, d.uploads[k], c) ==> Complete(d.uploads[k])
  }

  /** The store holds a beginning of c, and one upload at most goes on with it, from its end on. */
  ghost predicate Growing(h: Hashes, d: Disk, c: seq<byte>) {
    && (h.md5(c) in d.store ==> d.store[h.md5(c)] <= c)
    && forall fd :: fd in d.uploads && Feeds(h, d.uploads[fd], c) && !Complete(d.uploads[fd]) ==>
         && h.md5(c) in d.store && d.uploads[fd].pos == |d.store[h.md5(c)]|
         && OthersComplete(h, d, fd, c)
  }

  ghost predicate Tidy(h: Hashes, d: Disk, c: seq<byte>) { Held(h, d, c) || Growing(h, d, c) }

  /** The step opens the store's unfinished file of c while another upload is still writing to it. */
  ghost predicate Crowds(h: Hashes, d: Disk, a: Action, c: seq<byte>) {
    && a.OpenPuts? && a.fd in d.uploads && d.uploads[a.fd].digest == h.md5(c)
    && h.md5(c) in d.store && |d.store[h.md5(c)]| < |c|
    && !OthersComplete(h, d, a.fd, c)
  }

  lemma OpenKeepsHeld(h: Hashes, d: Disk, fd: int, c: seq<byte>)
    requires Honest(h, d) && Injective(h.md5) && Held(h, d, c) && fd in d.uploads
    ensures Held(h, PutsOpen(d, fd), c)
  {
  }

  /** Writing what is there already. */
  lemma SameBytes(c: seq<byte>, pos: nat, n: nat)
    requires pos + n <= |c|
    ensures Overwrite(c, pos, c[pos..pos + n]) == c
  {
    assert c == c[..pos] + c[pos..pos + n] + c[pos + n..];
  }

  lemma ChunkKeepsHeld(h: Hashes, d: Disk, fd: int, n: nat, c: seq<byte>)
    requires Honest(h, d) && Injective(h.md5) && Held(h, d, c) && Receiving(d, fd, n)
    ensures Held(h, PutsChunk(d, fd, n), c)
  {
    var u := d.uploads[fd];
    if u.digest == h.md5(c) {
      assert u.content == c && u.creator;
      SameBytes(c, u.pos, n);
    }
  }

  /** Opening and receiving apart, no step writes to the store. */
  lemma StoreOf(h: Hashes, d: Disk, a: Action)
    requires Allowed(h, d, a) && !a.OpenPuts? && !a.Chunk?
    ensures Apply(h, d, a).store == d.store
  {
    if !a.DoPuts? && !a.EndPuts? {
      OtherUploads(h, d, a);
    }
  }

  /** Nor does it change or add an open upload. */
  lemma OpenUploadsOf(h: Hashes, d: Disk, a: Action)
    requires Allowed(h, d, a) && !a.OpenPuts? && !a.Chunk?
    ensures var after := Apply(h, d, a).uploads;
            forall fd :: fd in after && after[fd].isOpen ==> fd in d.uploads && after[fd] == d.uploads[fd]
  {
    if !a.DoPuts? && !a.EndPuts? {
      OtherUploads(h, d, a);
    }
  }

  lemma StepKeepsHeld(h: Hashes, d: Disk, a: Action, c: seq<byte>)
    requires Honest(h, d) && Injective(h.md5) && Held(h, d, c) && Allowed(h, d, a)
    ensures Held(h, Apply(h, d, a), c)
  {
    if a.OpenPuts? {
      OpenKeepsHeld(h, d, a.fd, c);
    } else if a.Chunk? {
      ChunkKeepsHeld(h, d, a.fd, a.n, c);
    } else {
      StoreOf(h, d, a);
      OpenUploadsOf(h, d, a);
    }
  }

  lemma OpenKeepsGrowing(h: Hashes, d: Disk, fd: int, c: seq<byte>)
    requires Honest(h, d) && Injective(h.md5) && Growing(h, d, c) && fd in d.uploads && !d.uploads[fd].isOpen
    requires d.uploads[fd].digest == h.md5(c) ==> OthersComplete(h, d, fd, c)
    ensures Growing(h, PutsOpen(d, fd), c)
  {
    var after := PutsOpen(d, fd);
    forall k | k in after.uploads && Feeds(h, after.uploads[k], c) && !Complete(after.uploads[k])
      ensures && h.md5(c) in after.store && after.uploads[k].pos == |after.store[h.md5(c)]|
              && OthersComplete(h, after, k, c)
    {
      if k == fd {
        assert forall j :: j in after.uploads && j != fd ==> after.uploads[j] == d.uploads[j];
      } else {
        assert k in d.uploads && Feeds(h, d.uploads[k], c) && !Complete(d.uploads[k]);
        assert d.uploads[fd].digest != h.md5(c);
      }
    }
  }

  lemma ChunkKeepsGrowing(h: Hashes, d: Disk, fd: int, n: nat, c: seq<byte>)
    requires Honest(h, d) && Injective(h.md5) && Growing(h, d, c) && Receiving(d, fd, n)
    ensures Growing(h, PutsChunk(d, fd, n), c)
  {
    var after, u := PutsChunk(d, fd, n), d.uploads[fd];
    if u.digest == h.md5(c) {
      assert u.content == c && Feeds(h, u, c) && !Complete(u);
      assert d.store[u.digest] == c[..u.pos];
      AtTheEnd(d.store[u.digest], u, c[u.pos..u.pos + n]);
      assert after.store[u.digest] == c[..u.pos + n];
      assert OthersComplete(h, after, fd, c);
    } else {
      forall k | k in after.uploads && Feeds(h, after.uploads[k], c) && !Complete(after.uploads[k])
        ensures OthersComplete(h, after, k, c)
      {
        assert k != fd && OthersComplete(h, d, k, c);
      }
    }
  }

  /** A file that has grown to all of c is held. */
  lemma GrownIsHeld(h: Hashes, d: Disk, c: seq<byte>)
    requires Honest(h, d) && Injective(h.md5) && Growing(h, d, c)
    requires h.md5(c) in d.store && |d.store[h.md5(c)]| >= |c|
    ensures Held(h, d, c)
  {
  }

  lemma StepKeepsTidy(h: Hashes, d: Disk, a: Action, c: seq<byte>)
    requires Honest(h, d) && Injective(h.md5) && Tidy(h, d, c) && Allowed(h, d, a) && !Crowds(h, d, a, c)
    ensures Tidy(h, Apply(h, d, a), c)
  {
    if Held(h, d, c) {
      StepKeepsHeld(h, d, a, c);
    } else if a.OpenPuts? {
      if h.md5(c) in d.store && |d.store[h.md5(c)]| >= |c| {
        GrownIsHeld(h, d, c);
      }
      OpenKeepsGrowing(h, d, a.fd, c);
    } else if a.Chunk? {
      ChunkKeepsGrowing(h, d, a.fd, a.n, c);
    } else {
      StoreOf(h, d, a);
      OpenUploadsOf(h, d, a);
      FewerFeedersTidy(h, d, Apply(h, d, a), c);
    }
  }

  lemma FewerFeedersTidy(h: Hashes, d: Disk, after: Disk, c: seq<byte>)
    requires Growing(h, d, c) && after.store == d.store
    requires forall fd :: fd in after.uploads && after.uploads[fd].isOpen ==>
               fd in d.uploads && after.uploads[fd] == d.uploads[fd]
    ensures Growing(h, after, c)
  {
    forall k | k in after.uploads && Feeds(h, after.uploads[k], c) && !Complete(after.uploads[k])
      ensures OthersComplete(h, after, k, c)
    {
      assert OthersComplete(h, d, k, c);
    }
  }

  // ---- One upload ----------------------------------------------------------------------------------

  /**
   An appending upload needs exactly what is to come before its bytes; the creator needs right bytes before its
   offset, and nothing beyond the end of the content.
   */
  predicate InPlace(file: seq<byte>, u: Upload, c: seq<byte>) {
    && u.pos <= |c|
    && if u.creator then u.pos <= |file| <= |c| && file[..u.pos] == c[..u.pos] else file == c[..u.pos]
  }

  /** No other upload of c is unfinished, except that its creator may be when this one has finished. */
  ghost predicate NoRival(h: Hashes, d: Disk, fd: int, c: seq<byte>, done: bool) {
    forall k :: k in d.uploads && k != fd && Feeds(h, d.uploads[k], c) ==>
      Complete(d.uploads[k]) || (done && d.uploads[k].creator)
  }

  /** The upload has c open and what is in the store is in place for it; nobody else gets in its way. */
  ghost predicate Filling(h: Hashes, d: Disk, fd: int, c: seq<byte>) {
    && fd in d.uploads && d.uploads[fd].content == c && Feeds(h, d.uploads[fd], c)
    && h.md5(c) in d.store && InPlace(d.store[h.md5(c)], d.uploads[fd], c)
    && NoRival(h, d, fd, c, Complete(d.uploads[fd]))
  }

  lemma InPlaceWhole(file: seq<byte>, u: Upload, c: seq<byte>)
    requires InPlace(file, u, c) && u.pos >= |c|
    ensures file == c
  {
    assert c[..|c|] == c;
    assert u.creator ==> file[..u.pos] == file;
  }

  lemma FilledIsHeld(h: Hashes, d: Disk, fd: int, c: seq<byte>)
    requires Filling(h, d, fd, c) && Complete(d.uploads[fd])
    ensures Held(h, d, c)
  {
    InPlaceWhole(d.store[h.md5(c)], d.uploads[fd], c);
  }

  lemma WriteInPlace(file: seq<byte>, u: Upload, c: seq<byte>, n: nat)
    requires InPlace(file, u, c) && u.pos + n <= |c|
    ensures u.pos <= |file|
    ensures InPlace(Written(file, u, c[u.pos..u.pos + n]), u.(pos := u.pos + n), c)
  {
    var after := Written(file, u, c[u.pos..u.pos + n]);
    assert c[..u.pos] + c[u.pos..u.pos + n] == c[..u.pos + n];
    if u.creator {
      assert after[..u.pos + n] == file[..u.pos] + c[u.pos..u.pos + n];
    }
  }

  lemma OpenKeepsFilling(h: Hashes, d: Disk, k: int, fd: int, c: seq<byte>)
    requires Sound(h, d) && Injective(h.md5) && Filling(h, d, fd, c) && k in d.uploads && !d.uploads[k].isOpen
    requires !Crowds(h, d, OpenPuts(k), c)
    ensures Filling(h, PutsOpen(d, k), fd, c)
  {
    if d.uploads[k].digest == h.md5(c) {
      assert d.uploads[k].content == c;
      if Complete(d.uploads[fd]) {
        InPlaceWhole(d.store[h.md5(c)], d.uploads[fd], c);
      } else {
        assert |d.store[h.md5(c)]| >= |c|;
      }
    }
  }

  lemma OwnChunkKeepsFilling(h: Hashes, d: Disk, fd: int, n: nat, c: seq<byte>)
    requires Filling(h, d, fd, c) && Receiving(d, fd, n)
    ensures Filling(h, PutsChunk(d, fd, n), fd, c)
  {
    WriteInPlace(d.store[h.md5(c)], d.uploads[fd], c, n);
    var after := PutsChunk(d, fd, n);
    forall k | k in after.uploads && k != fd && Feeds(h, after.uploads[k], c) ensures Complete(after.uploads[k]) {
      assert k in d.uploads && Feeds(h, d.uploads[k], c) && !Complete(d.uploads[fd]);
    }
  }

  lemma OtherChunkKeepsFile(h: Hashes, d: Disk, k: int, n: nat, fd: int, c: seq<byte>)
    requires Honest(h, d) && Injective(h.md5) && Filling(h, d, fd, c) && Receiving(d, k, n) && k != fd
    ensures h.md5(c) in PutsChunk(d, k, n).store && PutsChunk(d, k, n).store[h.md5(c)] == d.store[h.md5(c)]
    ensures d.uploads[k].digest == h.md5(c) ==> Complete(d.uploads[fd]) && d.uploads[k].creator
  {
    var u := d.uploads[k];
    if u.digest == h.md5(c) {
      assert u.content == c && Feeds(h, u, c) && Complete(d.uploads[fd]) && u.creator;
      InPlaceWhole(d.store[h.md5(c)], d.uploads[fd], c);
      SameBytes(c, u.pos, n);
    }
  }

  lemma ChunkKeepsFilling(h: Hashes, d: Disk, k: int, n: nat, fd: int, c: seq<byte>)
    requires Honest(h, d) && Injective(h.md5) && Filling(h, d, fd, c) && Receiving(d, k, n)
    ensures Filling(h, PutsChunk(d, k, n), fd, c)
  {
    if k == fd {
      OwnChunkKeepsFilling(h, d, fd, n, c);
    } else {
      OtherChunkKeepsFile(h, d, k, n, fd, c);
    }
  }

  /** An upload goes on filling the file whatever is done, but for crowding it. */
  lemma StepKeepsFilling(h: Hashes, d: Disk, a: Action, fd: int, c: seq<byte>)
    requires Sound(h, d) && Injective(h.md5) && Filling(h, d, fd, c) && Allowed(h, d, a) && a != EndPuts(fd)
    requires !Crowds(h, d, a, c)
    ensures Filling(h, Apply(h, d, a), fd, c)
  {
    if a.OpenPuts? {
      OpenKeepsFilling(h, d, a.fd, fd, c);
    } else if a.Chunk? {
      ChunkKeepsFilling(h, d, a.fd, a.n, fd, c);
    } else {
      StoreOf(h, d, a);
      OpenUploadsOf(h, d, a);
      StepKeepsUpload(h, d, a, fd);
    }
  }

  lemma TidyFills(h: Hashes, d: Disk, fd: int, c: seq<byte>)
    requires Sound(h, d) && Injective(h.md5) && Tidy(h, d, c)
    requires fd in d.uploads && d.uploads[fd].content == c && d.uploads[fd].isOpen
    ensures Filling(h, d, fd, c)
  {
    var u := d.uploads[fd];
    assert UploadOpenable(d, u) && Feeds(h, u, c);
    forall k | k in d.uploads && Feeds(h, d.uploads[k], c) ensures d.uploads[k].content == c {
    }
    var file := d.store[h.md5(c)];
    if Complete(u) {
      assert file == c && c[..|c|] == c;
    }
  }

  // ---- Whole runs ------------------------------------------------------------------------

  ghost predicate Uncrowded(h: Hashes, d: Disk, run: seq<Action>, c: seq<byte>)
    requires CanRun(h, d, run)
    decreases |run|
  {
    run == [] || (!Crowds(h, d, run[0], c) && Uncrowded(h, Apply(h, d, run[0]), run[1..], c))
  }

  ghost predicate Unclaimed(
    h: Hashes, d: Disk, run: seq<Action>, owner: string, name: string, parent: nat, c: seq<byte>)
    requires CanRun(h, d, run)
    decreases |run|
  {
    run == [] ||
    (!Claims(h, d, run[0], owner, name, parent, c)
     && Unclaimed(h, Apply(h, d, run[0]), run[1..], owner, name, parent, c))
  }

  ghost predicate NoRemoval(h: Hashes, d: Disk, run: seq<Action>, owner: string, name: string, parent: nat)
    requires CanRun(h, d, run)
    decreases |run|
  {
    run == [] ||
    (!Removes(d, run[0], owner, name, parent) && NoRemoval(h, Apply(h, d, run[0]), run[1..], owner, name, parent))
  }

  lemma {:induction false} RunKeepsTidy(h: Hashes, d: Disk, run: seq<Action>, c: seq<byte>)
    requires Sound(h, d) && Injective(h.md5) && Tidy(h, d, c) && CanRun(h, d, run) && Uncrowded(h, d, run, c)
    ensures Sound(h, Run(h, d, run)) && Tidy(h, Run(h, d, run), c)
    decreases |run|
  {
    if run != [] {
      StepKeepsSound(h, d, run[0]);
      StepKeepsTidy(h, d, run[0], c);
      RunKeepsTidy(h, Apply(h, d, run[0]), run[1..], c);
    }
  }

  lemma {:induction false} RunKeepsFilling(h: Hashes, d: Disk, run: seq<Action>, fd: int, c: seq<byte>)
    requires Sound(h, d) && Injective(h.md5) && Filling(h, d, fd, c) && CanRun(h, d, run) && EndPuts(fd) !in run
    requires Uncrowded(h, d, run, c)
    ensures Sound(h, Run(h, d, run)) && Filling(h, Run(h, d, run), fd, c)
    decreases |run|
  {
    if run != [] {
      assert run[0] != EndPuts(fd);
      StepKeepsSound(h, d, run[0]);
      StepKeepsFilling(h, d, run[0], fd, c);
      RunKeepsFilling(h, Apply(h, d, run[0]), run[1..], fd, c);
    }
  }

  lemma {:induction false} RunKeepsReserved(
    h: Hashes, d: Disk, run: seq<Action>, owner: string, name: string, parent: nat, c: seq<byte>)
    requires Reserved(h, d, owner, name, parent, c) && CanRun(h, d, run)
    requires Unclaimed(h, d, run, owner, name, parent, c)
    ensures Reserved(h, Run(h, d, run), owner, name, parent, c)
    decreases |run|
  {
    if run != [] {
      StepKeepsReserved(h, d, run[0], owner, name, parent, c);
      RunKeepsReserved(h, Apply(h, d, run[0]), run[1..], owner, name, parent, c);
    }
  }

  lemma {:induction false} RunKeepsNamed(
    h: Hashes, d: Disk, run: seq<Action>, owner: string, name: string, parent: nat, c: seq<byte>)
    requires Sound(h, d) && Named(h, d, owner, name, parent, c) && CanRun(h, d, run)
    requires NoRemoval(h, d, run, owner, name, parent)
    ensures Named(h, Run(h, d, run), owner, name, parent, c)
    decreases |run|
  {
    if run != [] {
      StepKeepsNamed(h, d, run[0], owner, name, parent, c);
      StepKeepsSound(h, d, run[0]);
      RunKeepsNamed(h, Apply(h, d, run[0]), run[1..], owner, name, parent, c);
    }
  }

  lemma {:induction false} RunKeepsHeld(h: Hashes, d: Disk, run: seq<Action>, c: seq<byte>)
    requires Honest(h, d) && Injective(h.md5) && Held(h, d, c) && CanRun(h, d, run)
    ensures Held(h, Run(h, d, run), c)
    decreases |run|
  {
    if run != [] {
      StepKeepsHeld(h, d, run[0], c);
      StepKeepsHonest(h, d, run[0]);
      RunKeepsHeld(h, Apply(h, d, run[0]), run[1..], c);
    }
  }

  /** The place has rows of content c only, at least one, and the store holds all of c, for good. */
  ghost predicate Stored(h: Hashes, d: Disk, owner: string, name: string, parent: nat, c: seq<byte>) {
    Named(h, d, owner, name, parent, c) && Held(h, d, c)
  }

  /** What is stored stays stored, whatever anybody does, until its owner removes it. */
  lemma RunKeepsStored(
    h: Hashes, d: Disk, run: seq<Action>, owner: string, name: string, parent: nat, c: seq<byte>)
    requires Sound(h, d) && Injective(h.md5) && CanRun(h, d, run)
    requires Stored(h, d, owner, name, parent, c) && NoRemoval(h, d, run, owner, name, parent)
    ensures Stored(h, Run(h, d, run), owner, name, parent, c)
  {
    RunKeepsNamed(h, d, run, owner, name, parent, c);
    RunKeepsHeld(h, d, run, c);
  }

  /** An upload in progress stays the one that was accepted until it ends. */
  lemma {:induction false} UploadStays(h: Hashes, d: Disk, run: seq<Action>, fd: int)
    requires CanRun(h, d, run) && fd in d.uploads && EndPuts(fd) !in run
    ensures var after := Run(h, d, run);
            && fd in after.uploads
            && Facts(after.uploads[fd]) == Facts(d.uploads[fd])
    decreases |run|
  {
    if run != [] {
      assert run[0] != EndPuts(fd);
      StepKeepsUpload(h, d, run[0], fd);
      UploadStays(h, Apply(h, d, run[0]), run[1..], fd);
    }
  }

  /** It only ever comes further. */
  lemma StepKeepsUpload(h: Hashes, d: Disk, a: Action, fd: int)
    requires Allowed(h, d, a) && fd in d.uploads && a != EndPuts(fd)
    ensures fd in Apply(h, d, a).uploads && Facts(Apply(h, d, a).uploads[fd]) == Facts(d.uploads[fd])
    ensures d.uploads[fd].isOpen ==> Apply(h, d, a).uploads[fd].isOpen
  {
    if a.fd == fd {
      OwnStep(h, d, a);
    } else {
      OtherStep(h, d, a, fd);
    }
  }

  lemma OwnStep(h: Hashes, d: Disk, a: Action)
    requires Allowed(h, d, a) && a.fd in d.uploads && !a.EndPuts?
    ensures var after := Apply(h, d, a).uploads;
            && a.fd in after && Facts(after[a.fd]) == Facts(d.uploads[a.fd])
            && (d.uploads[a.fd].isOpen ==> after[a.fd].isOpen)
  {
    if !a.OpenPuts? && !a.Chunk? {
      assert !a.DoPuts?;
      OtherUploads(h, d, a);
    }
  }

  lemma BeginKeepsOthers(d: Disk, k: int, option: string, digest: string, content: seq<byte>, fd: int)
    requires k in d.sessions && fd in d.uploads && k != fd
    ensures var after := PutsBegin(d, k, option, digest, content).0.uploads; fd in after && after[fd] == d.uploads[fd]
  {
  }

  lemma OtherStep(h: Hashes, d: Disk, a: Action, fd: int)
    requires Allowed(h, d, a) && fd in d.uploads && a.fd != fd
    ensures fd in Apply(h, d, a).uploads && Apply(h, d, a).uploads[fd] == d.uploads[fd]
  {
    if a.DoPuts? {
      BeginKeepsOthers(d, a.fd, a.option, a.digest, a.content, fd);
    } else if !a.OpenPuts? && !a.Chunk? && !a.EndPuts? {
      OtherUploads(h, d, a);
    }
  }

  // ---- Reading back ----------------------------------------------------------------------

  /** The upload's place and content are in order, so that its end will store what it uploads. */
  ghost predicate Settled(h: Hashes, d: Disk, fd: int) {
    fd in d.uploads &&
    var u := d.uploads[fd];
    Filling(h, d, fd, u.content) && Reserved(h, d, u.owner, u.fileName, u.parent, u.content)
  }

  /** The end of an upload puts a row there, whether or not all bytes arrived. */
  lemma EndNames(h: Hashes, d: Disk, fd: int)
    requires Inv(d) && fd in d.uploads && d.uploads[fd].owner in d.users
    requires d.uploads[fd].digest == h.md5(d.uploads[fd].content)
    requires var u := d.uploads[fd]; Reserved(h, d, u.owner, u.fileName, u.parent, u.content)
    ensures var u := d.uploads[fd]; Named(h, PutsEnd(d, fd), u.owner, u.fileName, u.parent, u.content)
  {
    var u := d.uploads[fd];
    EndKeepsReserved(h, d, fd, u.owner, u.fileName, u.parent, u.content);
    assert Lasting(PutsEnd(d, fd), d.nextId, u.owner, u.fileName, u.parent);
  }

  /** Ending an upload whose bytes have all arrived stores the file. */
  lemma CompleteUploadIsStored(h: Hashes, d: Disk, fd: int)
    requires Inv(d) && Settled(h, d, fd) && Complete(d.uploads[fd]) && d.uploads[fd].owner in d.users
    ensures var u := d.uploads[fd];
            Stored(h, PutsEnd(d, fd), u.owner, u.fileName, u.parent, u.content)
  {
    var u := d.uploads[fd];
    EndNames(h, d, fd);
    FilledIsHeld(h, d, fd, u.content);
  }
}
