/**
 Listing a directory tree breadth first with a queue, and depth first by recursion. Entries are what
 readdir returns, the two dot entries among them in any place; a sealed directory is one that opendir
 refuses.
 */
module BreadthFirst {
  import opened Sequences

  datatype Entry = File(name: string) | Dir(name: string, listing: seq<Entry>) | Sealed(name: string)

  datatype Line = Line(indent: nat, name: string)

  predicate IsDot(name: string) { name == "." || name == ".." }

  /** The entries that are looked into: directories other than the dot entries. */
  predicate Opened(e: Entry) { !e.File? && !IsDot(e.name) }

  function KidsOf(e: Entry): seq<Entry> {
    if e.Dir? && !IsDot(e.name) then e.listing else []
  }

  function Kids(entries: seq<Entry>): seq<Entry> {
    if entries == [] then [] else KidsOf(entries[0]) + Kids(entries[1..])
  }

  function Size(e: Entry): nat {
    if e.Dir? then 1 + Sizes(e.listing) else 1
  }

  function Sizes(entries: seq<Entry>): nat {
    if entries == [] then 0 else Size(entries[0]) + Sizes(entries[1..])
  }

  lemma KidsSize(e: Entry)
    ensures Sizes(KidsOf(e)) < Size(e)
  {
  }

  lemma {:induction false} SizesConcat(a: seq<Entry>, b: seq<Entry>)
    ensures Sizes(a + b) == Sizes(a) + Sizes(b)
    decreases |a|
  {
    if a == [] {
      assert a + b == b;
    } else {
      assert (a + b)[0] == a[0] && (a + b)[1..] == a[1..] + b;
      SizesConcat(a[1..], b);
    }
  }

  lemma {:induction false} KidsSmaller(entries: seq<Entry>)
    ensures Sizes(Kids(entries)) + |entries| <= Sizes(entries)
    decreases |entries|
  {
    if entries != [] {
      KidsSmaller(entries[1..]);
      KidsSize(entries[0]);
      SizesConcat(KidsOf(entries[0]), Kids(entries[1..]));
    }
  }

  // ---- What should be printed --------------------------------------------------------------

  function Names(entries: seq<Entry>, indent: nat): seq<Line> {
    if entries == [] then [] else [Line(indent, entries[0].name)] + Names(entries[1..], indent)
  }

  /** Level order: all entries of one level, then the level made of their children. */
  function LevelOrder(entries: seq<Entry>, indent: nat): seq<Line>
    decreases Sizes(entries)
  {
    if entries == [] then []
    else
      KidsSmaller(entries);
      Names(entries, indent) + LevelOrder(Kids(entries), indent + 4)
  }

  /** Level order from one path on. */
  function Walk(root: Entry): seq<Line> { LevelOrder([root], 0) }

  /** Pre-order, with the dot entries as leaves: every entry of the tree once. */
  function PreOrder(entries: seq<Entry>, indent: nat): seq<Line>
    decreases Sizes(entries)
  {
    if entries == [] then []
    else
      KidsSize(entries[0]);
      [Line(indent, entries[0].name)] + PreOrder(KidsOf(entries[0]), indent + 4) + PreOrder(entries[1..], indent)
  }

  /** What printdir prints for a listing: no dot entries. */
  function DepthFirst(entries: seq<Entry>, indent: nat): seq<Line>
    decreases Sizes(entries)
  {
    if entries == [] then []
    else
      KidsSize(entries[0]);
      (if IsDot(entries[0].name) then []
       else [Line(indent, entries[0].name)] + DepthFirst(KidsOf(entries[0]), indent + 4))
      + DepthFirst(entries[1..], indent)
  }

  function NoDots(lines: seq<Line>): seq<Line> {
    if lines == [] then [] else (if IsDot(lines[0].name) then [] else [lines[0]]) + NoDots(lines[1..])
  }

  // ---- Breadth first and depth first print the same lines -----------------------------------

  lemma {:induction false} PreOrderConcat(a: seq<Entry>, b: seq<Entry>, indent: nat)
    ensures PreOrder(a + b, indent) == PreOrder(a, indent) + PreOrder(b, indent)
    decreases |a|
  {
    if a == [] {
      assert a + b == b;
    } else {
      assert (a + b)[0] == a[0] && (a + b)[1..] == a[1..] + b;
      PreOrderConcat(a[1..], b, indent);
      var first := [Line(indent, a[0].name)] + PreOrder(KidsOf(a[0]), indent + 4);
      assert first + (PreOrder(a[1..], indent) + PreOrder(b, indent)) ==
             (first + PreOrder(a[1..], indent)) + PreOrder(b, indent);
    }
  }

  /** The lines of one level and the subtrees of its children, taken apart. */
  lemma {:induction false} PreOrderByLevel(entries: seq<Entry>, indent: nat)
    ensures multiset(PreOrder(entries, indent)) ==
            multiset(Names(entries, indent)) + multiset(PreOrder(Kids(entries), indent + 4))
    decreases |entries|
  {
    if entries != [] {
      PreOrderByLevel(entries[1..], indent);
      PreOrderConcat(KidsOf(entries[0]), Kids(entries[1..]), indent + 4);
    }
  }

  /** Level order prints every entry of the tree exactly once. */
  lemma {:induction false} LevelOrderPrintsAll(entries: seq<Entry>, indent: nat)
    ensures multiset(LevelOrder(entries, indent)) == multiset(PreOrder(entries, indent))
    decreases Sizes(entries)
  {
    if entries != [] {
      KidsSmaller(entries);
      LevelOrderPrintsAll(Kids(entries), indent + 4);
      PreOrderByLevel(entries, indent);
    }
  }

  lemma {:induction false} NoDotsConcat(a: seq<Line>, b: seq<Line>)
    ensures NoDots(a + b) == NoDots(a) + NoDots(b)
    decreases |a|
  {
    if a == [] {
      assert a + b == b;
    } else {
      assert (a + b)[0] == a[0] && (a + b)[1..] == a[1..] + b;
      NoDotsConcat(a[1..], b);
    }
  }

  /** printdir's output is the pre-order without the dot entries. */
  lemma {:induction false} DepthFirstIsPreOrder(entries: seq<Entry>, indent: nat)
    ensures DepthFirst(entries, indent) == NoDots(PreOrder(entries, indent))
    decreases Sizes(entries)
  {
    if entries != [] {
      var kids, line := KidsOf(entries[0]), [Line(indent, entries[0].name)];
      KidsSize(entries[0]);
      DepthFirstIsPreOrder(entries[1..], indent);
      DepthFirstIsPreOrder(kids, indent + 4);
      NoDotsConcat(line + PreOrder(kids, indent + 4), PreOrder(entries[1..], indent));
      NoDotsConcat(line, PreOrder(kids, indent + 4));
      assert line[1..] == [];
    }
  }

  function Copies(lines: seq<Line>, line: Line): nat { multiset(lines)[line] }

  lemma {:induction false} NoDotsCopies(lines: seq<Line>, line: Line)
    ensures Copies(NoDots(lines), line) == if line.name == "." || line.name == ".." then 0 else Copies(lines, line)
    decreases |lines|
  {
    if lines != [] {
      NoDotsCopies(lines[1..], line);
      assert lines == [lines[0]] + lines[1..];
    }
  }

  /** Without the dot entries, breadth first prints a permutation of what depth first prints. */
  lemma SameLines(entries: seq<Entry>, indent: nat)
    ensures multiset(NoDots(LevelOrder(entries, indent))) == multiset(DepthFirst(entries, indent))
  {
    LevelOrderPrintsAll(entries, indent);
    DepthFirstIsPreOrder(entries, indent);
    var a, b := LevelOrder(entries, indent), PreOrder(entries, indent);
    forall line ensures multiset(NoDots(a))[line] == multiset(NoDots(b))[line] {
      NoDotsCopies(a, line);
      NoDotsCopies(b, line);
      assert Copies(a, line) == Copies(b, line);
    }
  }

  lemma {:induction false} NamesIndent(entries: seq<Entry>, indent: nat)
    ensures |Names(entries, indent)| == |entries|
    ensures forall i :: 0 <= i < |entries| ==> Names(entries, indent)[i] == Line(indent, entries[i].name)
    decreases |entries|
  {
    if entries != [] {
      NamesIndent(entries[1..], indent);
    }
  }

  /** Level by level: indents never decrease. */
  lemma {:induction false} LevelOrderSorted(entries: seq<Entry>, indent: nat)
    ensures forall i :: 0 <= i < |LevelOrder(entries, indent)| ==> LevelOrder(entries, indent)[i].indent >= indent
    ensures forall i, j :: 0 <= i < j < |LevelOrder(entries, indent)| ==>
              LevelOrder(entries, indent)[i].indent <= LevelOrder(entries, indent)[j].indent
    decreases Sizes(entries)
  {
    if entries != [] {
      KidsSmaller(entries);
      NamesIndent(entries, indent);
      LevelOrderSorted(Kids(entries), indent + 4);
      var all := LevelOrder(entries, indent);
      var names := Names(entries, indent);
      assert all == names + LevelOrder(Kids(entries), indent + 4);
    }
  }

  // ---- Directories that cannot be opened -------------------------------------------------------

  predicate Readable(e: Entry) {
    Opened(e) ==> e.Dir? && AllReadable(e.listing)
  }

  predicate AllReadable(entries: seq<Entry>) {
    forall e :: e in entries ==> Readable(e)
  }

  lemma ReadableStep(level: seq<Entry>, next: seq<Entry>)
    requires level != [] && !(level[0].Sealed? && Opened(level[0]))
    ensures AllReadable(level) && AllReadable(next) <==>
            AllReadable(level[1..]) && AllReadable(next + KidsOf(level[0]))
  {
    assert level == [level[0]] + level[1..];
    if AllReadable(level) && AllReadable(next) {
      assert Readable(level[0]);
      forall e | e in next + KidsOf(level[0]) ensures Readable(e) {
        assert e in next || e in KidsOf(level[0]);
        assert AllReadable(KidsOf(level[0]));
      }
    }
    if AllReadable(level[1..]) && AllReadable(next + KidsOf(level[0])) {
      forall e | e in next ensures Readable(e) {
        assert e in next + KidsOf(level[0]);
      }
      forall e | e in level ensures Readable(e) {
        if e == level[0] && Opened(e) {
          forall k | k in e.listing ensures Readable(k) {
            assert k in next + KidsOf(e);
          }
        }
      }
    }
  }

  // ---- The two programs ------------------------------------------------------------------------

  /** What is left to print: the rest of this level, then the next one and what follows. */
  function Left(level: seq<Entry>, next: seq<Entry>, indent: nat): seq<Line> {
    Names(level, indent) + LevelOrder(next + Kids(level), indent + 4)
  }

  lemma LeftFirst(before: seq<Line>, level: seq<Entry>, next: seq<Entry>, indent: nat)
    requires level != []
    ensures before + Left(level, next, indent) ==
            (before + [Line(indent, level[0].name)]) + Left(level[1..], next + KidsOf(level[0]), indent)
  {
    var first, names := [Line(indent, level[0].name)], Names(level[1..], indent);
    var below := LevelOrder(next + Kids(level), indent + 4);
    Assoc(next, KidsOf(level[0]), Kids(level[1..]));
    Assoc(before, first + names, below);
    Assoc(before, first, names);
    Assoc(before + first, names, below);
  }

  /** The end of a level: the next level begins. */
  lemma LeftNextLevel(next: seq<Entry>, indent: nat)
    ensures Left([], next, indent) == Left(next, [], indent + 4)
  {
    assert next + Kids([]) == next;
    assert [] + Kids(next) == Kids(next);
    if next != [] {
      KidsSmaller(next);
    }
  }

  function Tagged(entries: seq<Entry>, height: nat): seq<(Entry, nat)> {
    seq(|entries|, i requires 0 <= i < |entries| => (entries[i], height))
  }

  /** The queue in the middle of a level: its rest, and what is already known of the next. */
  function Queued(level: seq<Entry>, next: seq<Entry>, height: nat): seq<(Entry, nat)> {
    Tagged(level, height) + Tagged(next, height + 1)
  }

  lemma QueueStep(level: seq<Entry>, next: seq<Entry>, kids: seq<Entry>, height: nat)
    requires level != []
    ensures Queued(level, next, height) != [] && Queued(level, next, height)[0] == (level[0], height)
    ensures Queued(level, next, height)[1..] + Tagged(kids, height + 1) == Queued(level[1..], next + kids, height)
  {
    assert Tagged(next + kids, height + 1) == Tagged(next, height + 1) + Tagged(kids, height + 1);
    assert Tagged(level, height)[1..] == Tagged(level[1..], height);
  }

  lemma QueueShift(next: seq<Entry>, height: nat)
    ensures Queued([], next, height) == Queued(next, [], height + 1)
  {
    assert Tagged([], height) == [] && Tagged([], height + 2) == [];
  }

  /** The readdir loop: every child goes to the end of the queue. */
  method Enqueue(queue: seq<(Entry, nat)>, kids: seq<Entry>, height: nat) returns (longer: seq<(Entry, nat)>)
    ensures longer == queue + Tagged(kids, height)
  {
    longer := queue;
    for i := 0 to |kids|
      invariant longer == queue + Tagged(kids[..i], height)
    {
      longer := longer + [(kids[i], height)];
    }
    assert kids[..|kids|] == kids;
  }

  /** The queue holds the rest of one level followed by a part of the next; the rest is as announced. */
  ghost predicate BfsInv(
    goal: seq<Line>, readable: bool, queue: seq<(Entry, nat)>, out: seq<Line>,
    level: seq<Entry>, next: seq<Entry>, height: nat)
  {
    && queue == Queued(level, next, height)
    && out + Left(level, next, 4 * height) == goal
    && (readable <==> AllReadable(level) && AllReadable(next))
  }

  /** At every turn of the loop the queued heights are sorted and span at most two levels. */
  lemma QueueSpansTwoLevels(
    goal: seq<Line>, readable: bool, queue: seq<(Entry, nat)>, out: seq<Line>,
    level: seq<Entry>, next: seq<Entry>, height: nat)
    requires BfsInv(goal, readable, queue, out, level, next, height)
    ensures forall i :: 0 <= i < |queue| ==> queue[i].1 in {height, height + 1}
    ensures forall i, j :: 0 <= i < j < |queue| ==> queue[i].1 <= queue[j].1
  {
    forall i | 0 <= i < |queue| ensures queue[i].1 == if i < |level| then height else height + 1 {
      assert queue == Tagged(level, height) + Tagged(next, height + 1);
    }
  }

  lemma BfsStep(
    goal: seq<Line>, readable: bool, queue: seq<(Entry, nat)>, out: seq<Line>,
    level: seq<Entry>, next: seq<Entry>, height: nat)
    requires BfsInv(goal, readable, queue, out, level, next, height) && level != []
    requires !(level[0].Sealed? && Opened(level[0]))
    ensures queue != [] && queue[0] == (level[0], height)
    ensures var kids := KidsOf(level[0]);
            && BfsInv(goal, readable, queue[1..] + Tagged(kids, height + 1), out + [Line(4 * height, level[0].name)],
                      level[1..], next + kids, height)
            && Sizes(level[1..]) + Sizes(next + kids) < Sizes(level) + Sizes(next)
  {
    QueueStep(level, next, KidsOf(level[0]), height);
    LeftFirst(out, level, next, 4 * height);
    ReadableStep(level, next);
    SizesConcat(next, KidsOf(level[0]));
    KidsSize(level[0]);
  }

  lemma BfsShift(
    goal: seq<Line>, readable: bool, queue: seq<(Entry, nat)>, out: seq<Line>, next: seq<Entry>, height: nat)
    requires BfsInv(goal, readable, queue, out, [], next, height)
    ensures BfsInv(goal, readable, queue, out, next, [], height + 1)
  {
    LeftNextLevel(next, 4 * height);
    QueueShift(next, height);
  }

  lemma BfsSealed(
    goal: seq<Line>, readable: bool, queue: seq<(Entry, nat)>, out: seq<Line>,
    level: seq<Entry>, next: seq<Entry>, height: nat)
    requires BfsInv(goal, readable, queue, out, level, next, height) && level != []
    requires level[0].Sealed? && Opened(level[0])
    ensures !readable && out + [Line(4 * height, level[0].name)] <= goal
    ensures queue != [] && queue[0] == (level[0], height)
  {
    QueueStep(level, next, [], height);
    LeftFirst(out, level, next, 4 * height);
    assert level[0] in level && !Readable(level[0]);
  }

  lemma BfsStart(root: Entry)
    ensures BfsInv(Walk(root), Readable(root), [(root, 0)], [], [root], [], 0)
  {
    assert [] + Kids([root]) == Kids([root]);
    assert [(root, 0)] == Queued([root], [], 0);
  }

  /** One turn of the loop, with the step to the next level when this one is used up. */
  lemma BfsTurn(
    goal: seq<Line>, readable: bool, queue: seq<(Entry, nat)>, out: seq<Line>,
    level: seq<Entry>, next: seq<Entry>, height: nat,
    longer: seq<(Entry, nat)>, lines: seq<Line>)
    returns (level': seq<Entry>, next': seq<Entry>, height': nat)
    requires BfsInv(goal, readable, queue, out, level, next, height) && level != [] && queue != []
    requires !(level[0].Sealed? && Opened(level[0]))
    requires longer == queue[1..] + Tagged(KidsOf(level[0]), height + 1)
    requires lines == out + [Line(4 * height, level[0].name)]
    ensures BfsInv(goal, readable, longer, lines, level', next', height')
    ensures level' == [] ==> next' == []
    ensures Sizes(level') + Sizes(next') < Sizes(level) + Sizes(next)
  {
    BfsStep(goal, readable, queue, out, level, next, height);
    level', next', height' := level[1..], next + KidsOf(level[0]), height;
    if level' == [] {
      BfsShift(goal, readable, longer, lines, next', height);
      level', next', height' := next', [], height + 1;
    }
  }

  lemma BfsHead(
    goal: seq<Line>, readable: bool, queue: seq<(Entry, nat)>, out: seq<Line>,
    level: seq<Entry>, next: seq<Entry>, height: nat)
    requires BfsInv(goal, readable, queue, out, level, next, height) && queue != [] && (level == [] ==> next == [])
    ensures level != [] && queue[0] == (level[0], height)
  {
    assert |Queued(level, next, height)| == |level| + |next|;
  }

  lemma BfsDone(goal: seq<Line>, readable: bool, out: seq<Line>, level: seq<Entry>, next: seq<Entry>, height: nat)
    requires BfsInv(goal, readable, [], out, level, next, height)
    ensures readable && out == goal
  {
    assert |Queued(level, next, height)| == |level| + |next|;
    assert out + [] == out;
  }

  /**
   The loop of BFS_File: a queue of entries with their heights, which at every moment holds the rest of
   one level followed by a part of the next. A directory that cannot be opened ends it at once.
   */
  method BfsLoop(start: seq<(Entry, nat)>, ghost first: seq<Entry>, ghost goal: seq<Line>, ghost readable: bool)
    returns (out: seq<Line>, complete: bool)
    requires BfsInv(goal, readable, start, [], first, [], 0)
    ensures complete == readable && out <= goal && (complete ==> out == goal)
  {
    out := [];
    var queue := start;
    ghost var level, next, height := first, [], 0;
    while queue != []
      invariant BfsInv(goal, readable, queue, out, level, next, height)
      invariant level == [] ==> next == []
      decreases Sizes(level) + Sizes(next)
    {
      BfsHead(goal, readable, queue, out, level, next, height);
      var (ptr, h) := queue[0];
      if Opened(ptr) && ptr.Sealed? {
        BfsSealed(goal, readable, queue, out, level, next, height);
        return out + [Line(4 * h, ptr.name)], false;
      }
      var longer := Enqueue(queue[1..], KidsOf(ptr), h + 1);
      var lines := out + [Line(4 * h, ptr.name)];
      level, next, height := BfsTurn(goal, readable, queue, out, level, next, height, longer, lines);
      queue, out := longer, lines;
    }
    BfsDone(goal, readable, out, level, next, height);
    complete := true;
  }

  /** The root goes into the queue as a directory whatever it is; opendir refuses one that is a file. */
  function AsDirectory(root: Entry): Entry {
    if root.File? then Sealed(root.name) else root
  }

  lemma OneName(e: Entry, indent: nat)
    ensures Names([e], indent) == [Line(indent, e.name)]
  {
    assert [e][1..] == [];
  }

  lemma SameWalk(root: Entry)
    ensures Walk(AsDirectory(root)) == Walk(root)
  {
    if root.File? {
      var sealed := Sealed(root.name);
      assert [root][1..] == [] && [sealed][1..] == [];
      assert Kids([root]) == [] && Kids([sealed]) == [];
      OneName(root, 0);
      OneName(sealed, 0);
    }
  }

  /**
   BFS_File prints the level order, or the beginning of it when some directory cannot be opened, to which
   a plain file given as the root counts.
   */
  method BfsFile(root: Entry) returns (out: seq<Line>, complete: bool)
    ensures complete <==> Readable(root) && (root.File? ==> IsDot(root.name))
    ensures out <= Walk(root) && (complete ==> out == Walk(root))
  {
    var top := AsDirectory(root);
    SameWalk(root);
    BfsStart(top);
    out, complete := BfsLoop([(top, 0)], [top], Walk(top), Readable(top));
  }

  /** What printdir prints for one entry of a listing. */
  function OwnLines(e: Entry, width: nat): seq<Line> {
    if IsDot(e.name) then [] else [Line(width, e.name)] + DepthFirst(KidsOf(e), width + 4)
  }

  lemma DepthFirstStep(before: seq<Line>, entries: seq<Entry>, i: nat, width: nat)
    requires i < |entries|
    ensures before + DepthFirst(entries[i..], width) ==
            (before + OwnLines(entries[i], width)) + DepthFirst(entries[i + 1..], width)
  {
    assert entries[i..][0] == entries[i] && entries[i..][1..] == entries[i + 1..];
  }

  method PrintEntry(p: Entry, width: nat) returns (out: seq<Line>)
    ensures out == OwnLines(p, width)
    decreases p, 1
  {
    out := [];
    if !IsDot(p.name) {
      out := [Line(width, p.name)];
      if !p.File? {
        var inner := PrintDir(p, width + 4);
        out := out + inner;
      }
    }
  }

  /** printdir of one directory. */
  method PrintDir(dir: Entry, width: nat) returns (out: seq<Line>)
    ensures out == if dir.Dir? then DepthFirst(dir.listing, width) else []
    decreases dir, 0
  {
    out := [];
    if !dir.Dir? {
      return;
    }
    var i := 0;
    assert dir.listing[0..] == dir.listing;
    while i < |dir.listing|
      invariant i <= |dir.listing|
      invariant out + DepthFirst(dir.listing[i..], width) == DepthFirst(dir.listing, width)
    {
      DepthFirstStep(out, dir.listing, i, width);
      var lines := PrintEntry(dir.listing[i], width);
      out := out + lines;
      i := i + 1;
    }
  }

  /** main of the depth-first program: the path itself, then its contents. */
  method FindDir(root: Entry) returns (out: seq<Line>)
    ensures out == [Line(0, root.name)] + (if root.Dir? then DepthFirst(root.listing, 4) else [])
    ensures Opened(root) ==> out == DepthFirst([root], 0)
  {
    out := [Line(0, root.name)];
    if !root.File? {
      var inner := PrintDir(root, 4);
      out := out + inner;
    }
    assert [root][1..] == [];
  }

  /** On a readable tree the two programs print the same lines, in different orders, except the dots. */
  method Compare(root: Entry) returns (breadth: seq<Line>, depth: seq<Line>)
    requires Opened(root) && Readable(root)
    ensures multiset(NoDots(breadth)) == multiset(depth)
  {
    var complete;
    breadth, complete := BfsFile(root);
    depth := FindDir(root);
    SameLines([root], 0);
  }

  /** Started at a dot entry, the breadth-first program prints one line and looks no further. */
  lemma DotRoot(root: Entry)
    requires root.name == "." || root.name == ".."
    ensures Walk(root) == [Line(0, root.name)]
  {
    var alone := [root];
    assert alone[1..] == [] && Kids(alone) == [] && Names(alone, 0) == [Line(0, root.name)];
    assert LevelOrder(alone, 0) == Names(alone, 0) + LevelOrder([], 4);
  }
}
