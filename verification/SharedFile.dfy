/**
 One file of the store under several writers. Uploads of one content write pieces of it, in any order in
 time: the one that created the file at its own offset, which moves on with every piece, the others to the
 end of the file, wherever that is by then.
 */
module SharedFile {
  import opened Options
  import opened Bytes
  import opened PathWalk
  import opened NetDisk
  import opened ReadBack

  /** `n` bytes of the content: from position `pos`, written to the end; or from the creator's offset, written there. */
  datatype Piece = Appended(pos: nat, n: nat) | Placed(n: nat)

  /** The pieces are pieces of a content of that size, when the creator starts at `at`. */
  predicate InsideContent(pieces: seq<Piece>, at: nat, size: nat)
    decreases |pieces|
  {
    pieces == [] ||
    match pieces[0]
    case Appended(pos, n) => n >= 1 && pos + n <= size && InsideContent(pieces[1..], at, size)
    case Placed(n) => n >= 1 && at + n <= size && InsideContent(pieces[1..], at + n, size)
  }

  /** The file after the pieces are written one after the other. */
  function Replay(c: seq<byte>, file: seq<byte>, at: nat, pieces: seq<Piece>): seq<byte>
    requires InsideContent(pieces, at, |c|) && at <= |file|
    decreases |pieces|
  {
    if pieces == [] then file
    else match pieces[0]
      case Appended(pos, n) => Replay(c, file + c[pos..pos + n], at, pieces[1..])
      case Placed(n) => Replay(c, Overwrite(file, at, c[at..at + n]), at + n, pieces[1..])
  }

  /** Where the creator's offset ends up. */
  function End(at: nat, pieces: seq<Piece>): (end: nat)
    ensures end >= at
    decreases |pieces|
  {
    if pieces == [] then at
    else match pieces[0]
      case Appended(_, _) => End(at, pieces[1..])
      case Placed(n) => End(at + n, pieces[1..])
  }

  /** Every piece that is appended lands where it belongs, or the creator goes on to write over all of it. */
  predicate Mended(len: nat, at: nat, pieces: seq<Piece>)
    decreases |pieces|
  {
    pieces == [] ||
    match pieces[0]
    case Appended(pos, n) =>
      (pos == len || len + n <= End(at, pieces[1..])) && Mended(len + n, at, pieces[1..])
    case Placed(n) => Mended(if len <= at + n then at + n else len, at + n, pieces[1..])
  }

  lemma {:induction false} EndInside(at: nat, pieces: seq<Piece>, size: nat)
    requires InsideContent(pieces, at, size) && at <= size
    ensures End(at, pieces) <= size
    decreases |pieces|
  {
    if pieces != [] {
      EndInside(if pieces[0].Placed? then at + pieces[0].n else at, pieces[1..], size);
    }
  }

  /** What is wrong in the file lies between the two positions. */
  predicate RightOutside(file: seq<byte>, c: seq<byte>, from: nat, to: nat) {
    |file| <= |c| && forall i :: 0 <= i < |file| && !(from <= i < to) ==> file[i] == c[i]
  }

  lemma AppendedRight(file: seq<byte>, c: seq<byte>, from: nat, to: nat, pos: nat, n: nat)
    requires RightOutside(file, c, from, to) && from <= |file| && to <= |c| && pos + n <= |c|
    requires pos == |file| || |file| + n <= to
    ensures RightOutside(file + c[pos..pos + n], c, from, to)
  {
  }

  lemma PlacedRight(file: seq<byte>, c: seq<byte>, at: nat, to: nat, n: nat)
    requires RightOutside(file, c, at, to) && at <= |file| && at + n <= |c|
    ensures RightOutside(Overwrite(file, at, c[at..at + n]), c, at + n, to)
  {
    var after := Overwrite(file, at, c[at..at + n]);
    forall i | 0 <= i < |after| && !(at + n <= i < to) ensures after[i] == c[i] {
      assert i < at || i >= at + n ==> i < |file| && after[i] == file[i];
    }
  }

  /** In front of the creator things may be wrong: they will have been written over in the end. */
  lemma {:induction false} MendedIsRight(c: seq<byte>, file: seq<byte>, at: nat, pieces: seq<Piece>)
    requires InsideContent(pieces, at, |c|) && at <= |file| && Mended(|file|, at, pieces)
    requires RightOutside(file, c, at, End(at, pieces))
    ensures Replay(c, file, at, pieces) <= c
    decreases |pieces|
  {
    if pieces != [] {
      match pieces[0] {
        case Appended(pos, n) =>
          EndInside(at, pieces[1..], |c|);
          AppendedRight(file, c, at, End(at, pieces), pos, n);
          MendedIsRight(c, file + c[pos..pos + n], at, pieces[1..]);
        case Placed(n) =>
          PlacedRight(file, c, at, End(at, pieces), n);
          MendedIsRight(c, Overwrite(file, at, c[at..at + n]), at + n, pieces[1..]);
      }
    }
  }

  /** Beyond the creator's last offset nothing is changed any more. */
  lemma {:induction false} ReplayKeeps(c: seq<byte>, file: seq<byte>, at: nat, pieces: seq<Piece>, j: nat)
    requires InsideContent(pieces, at, |c|) && at <= |file| && End(at, pieces) <= j < |file|
    ensures j < |Replay(c, file, at, pieces)| && Replay(c, file, at, pieces)[j] == file[j]
    decreases |pieces|
  {
    if pieces != [] {
      match pieces[0] {
        case Appended(pos, n) => ReplayKeeps(c, file + c[pos..pos + n], at, pieces[1..], j);
        case Placed(n) => ReplayKeeps(c, Overwrite(file, at, c[at..at + n]), at + n, pieces[1..], j);
      }
    }
  }

  /** A content for which a piece goes wrong and stays wrong, whatever the file was before. */
  lemma {:induction false} UnmendedBreaks(size: nat, len: nat, at: nat, pieces: seq<Piece>) returns (c: seq<byte>)
    requires InsideContent(pieces, at, size) && at <= len && !Mended(len, at, pieces)
    ensures |c| == size
    ensures forall file: seq<byte> :: |file| == len ==> !(Replay(c, file, at, pieces) <= c)
    decreases |pieces|
  {
    match pieces[0] {
      case Placed(n) =>
        c := UnmendedBreaks(size, if len <= at + n then at + n else len, at + n, pieces[1..]);
        forall file: seq<byte> | |file| == len ensures !(Replay(c, file, at, pieces) <= c) {
          assert |Overwrite(file, at, c[at..at + n])| == if len <= at + n then at + n else len;
        }
      case Appended(pos, n) =>
        if pos != len && len + n > End(at, pieces[1..]) {
          c := seq(size, i => if i == pos + n - 1 then 1 else 0);
          forall file: seq<byte> | |file| == len ensures !(Replay(c, file, at, pieces) <= c) {
            WrongByteStays(c, file, at, pieces);
          }
        } else {
          c := UnmendedBreaks(size, len + n, at, pieces[1..]);
          forall file: seq<byte> | |file| == len ensures !(Replay(c, file, at, pieces) <= c) {
            assert |file + c[pos..pos + n]| == len + n;
          }
        }
    }
  }

  lemma WrongByteStays(c: seq<byte>, file: seq<byte>, at: nat, pieces: seq<Piece>)
    requires InsideContent(pieces, at, |c|) && at <= |file| && pieces != [] && pieces[0].Appended?
    requires pieces[0].pos != |file| && |file| + pieces[0].n > End(at, pieces[1..])
    requires forall i :: 0 <= i < |c| ==> c[i] == if i == pieces[0].pos + pieces[0].n - 1 then 1 else 0
    ensures !(Replay(c, file, at, pieces) <= c)
  {
    var Appended(pos, n) := pieces[0];
    var grown, j := file + c[pos..pos + n], |file| + n - 1;
    ReplayKeeps(c, grown, at, pieces[1..], j);
    assert grown[j] == c[pos + n - 1] == 1;
  }

  /**
   Exactly when uploads of one content, however they interleave, leave the stored file a beginning of that
   content for every content: each appended piece lands at its own offset, or the creator goes on to write
   over all of it.
   */
  lemma SharedFileExactly(size: nat, have: nat, at: nat, pieces: seq<Piece>)
    requires InsideContent(pieces, at, size) && at <= have <= size
    ensures (forall c: seq<byte> :: |c| == size ==> Replay(c, c[..have], at, pieces) <= c) <==> Mended(have, at, pieces)
  {
    if Mended(have, at, pieces) {
      forall c: seq<byte> | |c| == size ensures Replay(c, c[..have], at, pieces) <= c {
        MendedIsRight(c, c[..have], at, pieces);
      }
    } else {
      var c := UnmendedBreaks(size, have, at, pieces);
      assert |c[..have]| == have;
    }
  }

  /** Every piece starts where the file ends at that moment. */
  predicate InOrder(have: nat, pieces: seq<Piece>)
    requires forall k :: 0 <= k < |pieces| ==> pieces[k].Appended?
    decreases |pieces|
  {
    pieces == [] || (pieces[0].pos == have && InOrder(have + pieces[0].n, pieces[1..]))
  }

  /** When the creator has gone, only the right order will do. */
  lemma {:induction false} AppendersInOrder(have: nat, at: nat, pieces: seq<Piece>, size: nat)
    requires InsideContent(pieces, at, size) && at <= have
    requires forall k :: 0 <= k < |pieces| ==> pieces[k].Appended?
    ensures End(at, pieces) == at
    ensures Mended(have, at, pieces) <==> InOrder(have, pieces)
    decreases |pieces|
  {
    if pieces != [] {
      AppendersInOrder(have + pieces[0].n, at, pieces[1..], size);
    }
  }

  // ---- Runs are replays -------------------------------------------------------------------------

  function AsPiece(u: Upload, n: nat): Piece { if u.creator then Placed(n) else Appended(u.pos, n) }

  /** What a step writes to the store's file of a digest. */
  ghost function PieceOf(h: Hashes, d: Disk, a: Action, digest: string): seq<Piece>
    requires Allowed(h, d, a)
  {
    if a.Chunk? && d.uploads[a.fd].digest == digest
    then [AsPiece(d.uploads[a.fd], a.n)]
    else []
  }

  ghost function Pieces(h: Hashes, d: Disk, run: seq<Action>, digest: string): seq<Piece>
    requires CanRun(h, d, run)
    decreases |run|
  {
    if run == [] then [] else PieceOf(h, d, run[0], digest) + Pieces(h, Apply(h, d, run[0]), run[1..], digest)
  }

  /** `at` is the offset of whoever created the store's file of c, as long as that upload is there. */
  ghost predicate CreatorAt(h: Hashes, d: Disk, c: seq<byte>, at: nat) {
    && h.md5(c) in d.store && at <= |d.store[h.md5(c)]|
    && forall k :: k in d.uploads && Feeds(h, d.uploads[k], c) && d.uploads[k].creator ==> d.uploads[k].pos == at
  }

  lemma StepIsPiece(h: Hashes, d: Disk, a: Action, c: seq<byte>, at: nat)
    requires Sound(h, d) && Injective(h.md5) && Allowed(h, d, a) && CreatorAt(h, d, c, at)
    ensures var pieces, after := PieceOf(h, d, a, h.md5(c)), Apply(h, d, a);
            && InsideContent(pieces, at, |c|) && CreatorAt(h, after, c, End(at, pieces))
            && after.store[h.md5(c)] == Replay(c, d.store[h.md5(c)], at, pieces)
  {
    if a.Chunk? {
      ChunkIsPiece(h, d, a.fd, a.n, c, at);
    } else if a.OpenPuts? {
    } else {
      StoreOf(h, d, a);
      OpenUploadsOf(h, d, a);
    }
  }

  lemma WrittenIsPiece(file: seq<byte>, u: Upload, c: seq<byte>, n: nat, at: nat)
    requires u.pos <= |file| && at <= |file| && n >= 1 && u.pos + n <= |c| && (u.creator ==> u.pos == at)
    ensures InsideContent([AsPiece(u, n)], at, |c|)
    ensures End(at, [AsPiece(u, n)]) == if u.creator then at + n else at
    ensures Written(file, u, c[u.pos..u.pos + n]) == Replay(c, file, at, [AsPiece(u, n)])
  {
    assert [AsPiece(u, n)][1..] == [];
  }

  lemma OtherChunk(h: Hashes, d: Disk, fd: int, n: nat, c: seq<byte>, at: nat)
    requires Receiving(d, fd, n) && CreatorAt(h, d, c, at) && d.uploads[fd].digest != h.md5(c)
    ensures CreatorAt(h, PutsChunk(d, fd, n), c, at) && PutsChunk(d, fd, n).store[h.md5(c)] == d.store[h.md5(c)]
  {
  }

  /** A receive step writes one piece: the creator at its offset, any other upload to the end. */
  lemma ChunkIsPiece(h: Hashes, d: Disk, fd: int, n: nat, c: seq<byte>, at: nat)
    requires Sound(h, d) && Injective(h.md5) && Receiving(d, fd, n) && CreatorAt(h, d, c, at)
    ensures var pieces, after := PieceOf(h, d, Chunk(fd, n), h.md5(c)), PutsChunk(d, fd, n);
            && InsideContent(pieces, at, |c|) && CreatorAt(h, after, c, End(at, pieces))
            && after.store[h.md5(c)] == Replay(c, d.store[h.md5(c)], at, pieces)
  {
    if d.uploads[fd].digest == h.md5(c) {
      OwnChunk(h, d, fd, n, c, at);
    } else {
      OtherChunk(h, d, fd, n, c, at);
    }
  }

  lemma OwnChunk(h: Hashes, d: Disk, fd: int, n: nat, c: seq<byte>, at: nat)
    requires Sound(h, d) && Injective(h.md5) && Receiving(d, fd, n) && CreatorAt(h, d, c, at)
    requires d.uploads[fd].digest == h.md5(c)
    ensures var pieces, after := [AsPiece(d.uploads[fd], n)], PutsChunk(d, fd, n);
            && InsideContent(pieces, at, |c|) && CreatorAt(h, after, c, End(at, pieces))
            && after.store[h.md5(c)] == Replay(c, d.store[h.md5(c)], at, pieces)
  {
    var u := d.uploads[fd];
    assert u.content == c && Feeds(h, u, c);
    WrittenIsPiece(d.store[h.md5(c)], u, c, n, at);
    ChunkMovesCreator(h, d, fd, n, c, at);
  }

  lemma ChunkMovesCreator(h: Hashes, d: Disk, fd: int, n: nat, c: seq<byte>, at: nat)
    requires Sound(h, d) && Receiving(d, fd, n) && CreatorAt(h, d, c, at) && d.uploads[fd].digest == h.md5(c)
    ensures CreatorAt(h, PutsChunk(d, fd, n), c, if d.uploads[fd].creator then at + n else at)
  {
    var after := PutsChunk(d, fd, n);
    forall k | k in after.uploads && k != fd && Feeds(h, after.uploads[k], c) && after.uploads[k].creator
      ensures !d.uploads[fd].creator
    {
      assert d.uploads[k] == after.uploads[k];
    }
  }

  lemma ReplayConcat(c: seq<byte>, file: seq<byte>, at: nat, a: seq<Piece>, b: seq<Piece>)
    requires |a| <= 1 && InsideContent(a, at, |c|) && at <= |file| && InsideContent(b, End(at, a), |c|)
    ensures InsideContent(a + b, at, |c|) && End(at, a + b) == End(End(at, a), b)
    ensures End(at, a) <= |Replay(c, file, at, a)|
    ensures Replay(c, file, at, a + b) == Replay(c, Replay(c, file, at, a), End(at, a), b)
  {
    if a == [] {
      assert a + b == b;
    } else {
      assert (a + b)[0] == a[0] && (a + b)[1..] == b && a[1..] == [];
    }
  }

  /** In every run of all clients, a file of the store is what the pieces written to it make of it. */
  lemma {:induction false} RunIsReplay(h: Hashes, d: Disk, run: seq<Action>, c: seq<byte>, at: nat)
    requires Sound(h, d) && Injective(h.md5) && CanRun(h, d, run) && CreatorAt(h, d, c, at)
    ensures var pieces, after := Pieces(h, d, run, h.md5(c)), Run(h, d, run);
            && InsideContent(pieces, at, |c|) && CreatorAt(h, after, c, End(at, pieces))
            && after.store[h.md5(c)] == Replay(c, d.store[h.md5(c)], at, pieces)
    decreases |run|
  {
    if run != [] {
      var first, next := PieceOf(h, d, run[0], h.md5(c)), Apply(h, d, run[0]);
      StepIsPiece(h, d, run[0], c, at);
      StepKeepsSound(h, d, run[0]);
      RunIsReplay(h, next, run[1..], c, End(at, first));
      ReplayConcat(c, d.store[h.md5(c)], at, first, Pieces(h, next, run[1..], h.md5(c)));
    }
  }

  /**
   So over every run, whatever the uploads of c do, a stored beginning of c is one afterwards when every piece
   that landed in the wrong place has been written over by the creator.
   */
  lemma MendedRunIsRight(h: Hashes, d: Disk, run: seq<Action>, c: seq<byte>, at: nat)
    requires Sound(h, d) && Injective(h.md5) && CanRun(h, d, run) && CreatorAt(h, d, c, at)
    requires d.store[h.md5(c)] <= c && Mended(|d.store[h.md5(c)]|, at, Pieces(h, d, run, h.md5(c)))
    ensures h.md5(c) in Run(h, d, run).store && Run(h, d, run).store[h.md5(c)] <= c
  {
    RunIsReplay(h, d, run, c, at);
    MendedIsRight(c, d.store[h.md5(c)], at, Pieces(h, d, run, h.md5(c)));
  }
}
