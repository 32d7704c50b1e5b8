/** strcmp on names, and insertion that keeps a sequence sorted and stable. */
module Sorting {
  import opened Sequences

  /** An entry of a directory: its name and what stat says about it. */
  datatype Data = Data(name: string, state: int)

  /** strcmp(a, b) < 0 */
  predicate Less(a: string, b: string) {
    b != "" && (a == "" || a[0] < b[0] || (a[0] == b[0] && Less(a[1..], b[1..])))
  }

  lemma {:induction false} LessIrreflexive(a: string)
    ensures !Less(a, a)
  {
    if a != "" {
      LessIrreflexive(a[1..]);
    }
  }

  lemma {:induction false} LessTransitive(a: string, b: string, c: string)
    requires Less(a, b) && Less(b, c)
    ensures Less(a, c)
  {
    if a != "" && a[0] == b[0] == c[0] {
      LessTransitive(a[1..], b[1..], c[1..]);
    }
  }

  lemma {:induction false} LessTotal(a: string, b: string)
    ensures Less(a, b) || Less(b, a) || a == b
  {
    if a != "" && b != "" && a[0] == b[0] {
      LessTotal(a[1..], b[1..]);
      if a[1..] == b[1..] {
        assert a == [a[0]] + a[1..] && b == [b[0]] + b[1..];
      }
    }
  }

  /** The texts agree up to k, and there the first one ends or has the smaller character. */
  predicate SmallerAt(a: string, b: string, k: nat) {
    k <= |a| && k < |b| && a[..k] == b[..k] && (k == |a| || a[k] < b[k])
  }

  /** It is the order of dictionaries: decided by the first place where the two texts differ. */
  lemma {:induction false} LessExactly(a: string, b: string)
    ensures Less(a, b) <==> exists k: nat :: SmallerAt(a, b, k)
  {
    if a == "" || b == "" || a[0] != b[0] {
      assert Less(a, b) ==> SmallerAt(a, b, 0);
    } else {
      LessExactly(a[1..], b[1..]);
      if k: nat :| SmallerAt(a[1..], b[1..], k) {
        assert a[..k + 1] == [a[0]] + a[1..][..k] && b[..k + 1] == [b[0]] + b[1..][..k];
        assert SmallerAt(a, b, k + 1);
      }
      if k: nat :| SmallerAt(a, b, k) {
        assert k > 0 && a[1..][..k - 1] == a[..k][1..] && b[1..][..k - 1] == b[..k][1..];
        assert SmallerAt(a[1..], b[1..], k - 1);
      }
    }
  }

  /** The comparison that ls passes to the list. */
  predicate Compare(newData: Data, data: Data) { Less(newData.name, data.name) }

  type Order = (Data, Data) -> bool

  ghost predicate StrictOrder(less: Order) {
    && (forall a :: !less(a, a))
    && (forall a, b, c :: less(a, b) && less(b, c) ==> less(a, c))
  }

  lemma CompareIsStrictOrder()
    ensures StrictOrder(Compare)
  {
    forall a: Data ensures !Compare(a, a) {
      LessIrreflexive(a.name);
    }
    forall a: Data, b: Data, c: Data | Compare(a, b) && Compare(b, c) ensures Compare(a, c) {
      LessTransitive(a.name, b.name, c.name);
    }
  }

  /** No later element belongs before an earlier one. */
  ghost predicate Sorted(xs: seq<Data>, less: Order) {
    forall i, j :: 0 <= i < j < |xs| ==> !less(xs[j], xs[i])
  }

  /** Before the first element that the new one is less than, or at the end. */
  function SortInsert(xs: seq<Data>, d: Data, less: Order): seq<Data> {
    if xs == [] then [d]
    else if less(d, xs[0]) then [d] + xs
    else [xs[0]] + SortInsert(xs[1..], d, less)
  }

  /** Inserting every input in turn. */
  function Build(inputs: seq<Data>, less: Order): seq<Data> {
    if inputs == [] then [] else SortInsert(Build(inputs[..|inputs| - 1], less), inputs[|inputs| - 1], less)
  }

  lemma {:induction false} InsertSplits(xs: seq<Data>, d: Data, less: Order) returns (k: nat)
    ensures k <= |xs| && SortInsert(xs, d, less) == xs[..k] + [d] + xs[k..]
    ensures forall i :: 0 <= i < k ==> !less(d, xs[i])
    ensures k < |xs| ==> less(d, xs[k])
  {
    if xs == [] || less(d, xs[0]) {
      k := 0;
    } else {
      k := InsertSplits(xs[1..], d, less);
      k := k + 1;
      assert xs[..k] == [xs[0]] + xs[1..][..k - 1];
    }
  }

  lemma InsertAt(xs: seq<Data>, d: Data, less: Order, k: nat)
    requires k <= |xs| && (forall i :: 0 <= i < k ==> !less(d, xs[i])) && (k < |xs| ==> less(d, xs[k]))
    ensures SortInsert(xs, d, less) == xs[..k] + [d] + xs[k..]
  {
    var j := InsertSplits(xs, d, less);
  }

  lemma InsertKeepsSorted(xs: seq<Data>, d: Data, less: Order)
    requires Sorted(xs, less) && StrictOrder(less)
    ensures Sorted(SortInsert(xs, d, less), less)
  {
    var k := InsertSplits(xs, d, less);
    var ys := SortInsert(xs, d, less);
    assert |ys| == |xs| + 1 && ys[k] == d;
    assert forall i :: 0 <= i < k ==> ys[i] == xs[i];
    assert forall i :: k < i < |ys| ==> ys[i] == xs[i - 1];
    forall i, j | 0 <= i < j < |ys| ensures !less(ys[j], ys[i]) {
      if i == k {
        assert less(d, xs[k]) && !less(xs[j - 1], xs[k]);
      }
    }
  }

  /** The elements with one name, in their order. */
  function Named(xs: seq<Data>, name: string): seq<Data> {
    if xs == [] then [] else (if xs[0].name == name then [xs[0]] else []) + Named(xs[1..], name)
  }

  lemma {:induction false} NamedConcat(a: seq<Data>, b: seq<Data>, name: string)
    ensures Named(a + b, name) == Named(a, name) + Named(b, name)
  {
    if a == [] {
      assert a + b == b;
    } else {
      var rest, first := a[1..], if a[0].name == name then [a[0]] else [];
      var both := a + b;
      assert both[0] == a[0] && both[1..] == rest + b;
      NamedConcat(rest, b, name);
      Assoc(first, Named(rest, name), Named(b, name));
      assert Named(both, name) == first + Named(both[1..], name);
    }
  }

  lemma {:induction false} NamedNone(xs: seq<Data>, name: string)
    requires forall i :: 0 <= i < |xs| ==> xs[i].name != name
    ensures Named(xs, name) == []
  {
    if xs != [] {
      NamedNone(xs[1..], name);
    }
  }

  lemma NoNamesake(xs: seq<Data>, d: Data, k: nat)
    requires Sorted(xs, Compare) && k <= |xs| && (k < |xs| ==> Compare(d, xs[k]))
    ensures Named(xs[k..], d.name) == []
  {
    forall i | 0 <= i < |xs[k..]| ensures xs[k..][i].name != d.name {
      LessIrreflexive(d.name);
      assert i > 0 ==> !Compare(xs[k + i], xs[k]);
    }
    NamedNone(xs[k..], d.name);
  }

  lemma NamedOne(d: Data, name: string)
    ensures Named([d], name) == if d.name == name then [d] else []
  {
    assert [d][1..] == [];
  }

  /** A new element goes behind all that have its name. */
  lemma InsertIsStable(xs: seq<Data>, d: Data, name: string)
    requires Sorted(xs, Compare)
    ensures Named(SortInsert(xs, d, Compare), name) == Named(xs, name) + Named([d], name)
  {
    var k := InsertSplits(xs, d, Compare);
    var a, b := xs[..k], xs[k..];
    assert xs == a + b;
    NamedConcat(a + [d], b, name);
    NamedConcat(a, [d], name);
    NamedConcat(a, b, name);
    NamedOne(d, name);
    if d.name == name {
      NoNamesake(xs, d, k);
    }
  }

  lemma {:induction false} BuildIsSorted(inputs: seq<Data>)
    ensures Sorted(Build(inputs, Compare), Compare)
    decreases |inputs|
  {
    if inputs != [] {
      var front, d := inputs[..|inputs| - 1], inputs[|inputs| - 1];
      BuildIsSorted(front);
      CompareIsStrictOrder();
      InsertKeepsSorted(Build(front, Compare), d, Compare);
    }
  }

  lemma {:induction false} BuildPermutes(inputs: seq<Data>, less: Order)
    ensures multiset(Build(inputs, less)) == multiset(inputs)
    decreases |inputs|
  {
    if inputs != [] {
      var front, d := inputs[..|inputs| - 1], inputs[|inputs| - 1];
      assert inputs == front + [d];
      BuildPermutes(front, less);
      var xs := Build(front, less);
      var k := InsertSplits(xs, d, less);
      assert xs == xs[..k] + xs[k..];
    }
  }

  lemma {:induction false} BuildIsStable(inputs: seq<Data>, name: string)
    ensures Named(Build(inputs, Compare), name) == Named(inputs, name)
    decreases |inputs|
  {
    if inputs != [] {
      var front, d := inputs[..|inputs| - 1], inputs[|inputs| - 1];
      assert inputs == front + [d];
      BuildIsStable(front, name);
      BuildIsSorted(front);
      InsertIsStable(Build(front, Compare), d, name);
      NamedConcat(front, [d], name);
    }
  }

  /** For every input order: a sorted permutation, with equal names in input order. */
  lemma BuildSorts(inputs: seq<Data>)
    ensures Sorted(Build(inputs, Compare), Compare)
    ensures multiset(Build(inputs, Compare)) == multiset(inputs)
    ensures forall name :: Named(Build(inputs, Compare), name) == Named(inputs, name)
  {
    BuildIsSorted(inputs);
    BuildPermutes(inputs, Compare);
    forall name ensures Named(Build(inputs, Compare), name) == Named(inputs, name) {
      BuildIsStable(inputs, name);
    }
  }

  /** Deleting by key: the first element that equals the key goes, the others stay in order. */
  function RemoveFirst(xs: seq<Data>, key: Data, equal: Order): seq<Data> {
    if xs == [] then [] else if equal(key, xs[0]) then xs[1..] else [xs[0]] + RemoveFirst(xs[1..], key, equal)
  }

  lemma {:induction false} RemoveAt(xs: seq<Data>, key: Data, equal: Order, k: nat)
    requires k <= |xs| && (forall i :: 0 <= i < k ==> !equal(key, xs[i])) && (k < |xs| ==> equal(key, xs[k]))
    ensures RemoveFirst(xs, key, equal) == if k < |xs| then xs[..k] + xs[k + 1..] else xs
  {
    if k > 0 {
      var rest := xs[1..];
      RemoveAt(rest, key, equal, k - 1);
      if k < |xs| {
        Assoc([xs[0]], rest[..k - 1], rest[k..]);
        assert xs[..k] == [xs[0]] + rest[..k - 1];
        assert rest[k..] == xs[k + 1..];
      }
    }
  }

  /** Deleting keeps the list sorted and loses at most one element. */
  lemma {:induction false} RemoveKeepsSorted(xs: seq<Data>, key: Data, equal: Order, less: Order)
    requires Sorted(xs, less)
    ensures Sorted(RemoveFirst(xs, key, equal), less)
    ensures RemoveFirst(xs, key, equal) == xs <==> forall i :: 0 <= i < |xs| ==> !equal(key, xs[i])
    ensures |RemoveFirst(xs, key, equal)| >= |xs| - 1
  {
    if k :| 0 <= k < |xs| && equal(key, xs[k]) && forall i :: 0 <= i < k ==> !equal(key, xs[i]) {
      RemoveAt(xs, key, equal, k);
      var ys := xs[..k] + xs[k + 1..];
      assert forall i :: 0 <= i < |ys| ==> ys[i] == if i < k then xs[i] else xs[i + 1];
    } else {
      NoFirst(xs, key, equal, |xs|);
      RemoveAt(xs, key, equal, |xs|);
    }
  }

  lemma {:induction false} NoFirst(xs: seq<Data>, key: Data, equal: Order, n: nat)
    requires n <= |xs|
    requires !exists k :: 0 <= k < |xs| && equal(key, xs[k]) && forall i :: 0 <= i < k ==> !equal(key, xs[i])
    ensures forall i :: 0 <= i < n ==> !equal(key, xs[i])
  {
    if n > 0 {
      NoFirst(xs, key, equal, n - 1);
    }
  }
}

/** The singly linked list with a head node and a pointer to the last node. */
module LinkedList {
  import opened Sorting

  class Node {
    var data: Data
    var next: Node?

    constructor (data: Data)
      ensures this.data == data && next == null
    {
      this.data, next := data, null;
    }
  }

  ghost function DataOf(nodes: seq<Node>): (xs: seq<Data>)
    reads nodes
    ensures |xs| == |nodes| && forall i :: 0 <= i < |nodes| ==> xs[i] == nodes[i].data
  {
    seq(|nodes|, i requires 0 <= i < |nodes| reads nodes => nodes[i].data)
  }

  ghost function Following(nodes: seq<Node>, i: int): Node?
    requires -1 <= i < |nodes|
  {
    if i + 1 == |nodes| then null else nodes[i + 1]
  }

  /** Each node points to the next one and the last one to null. */
  ghost predicate Chained(nodes: seq<Node>)
    reads nodes
  {
    forall i {:trigger nodes[i].next} :: 0 <= i < |nodes| ==> nodes[i].next == Following(nodes, i)
  }

  /** So a node stands in one place only. */
  lemma {:induction false} StandsOnce(nodes: seq<Node>, i: nat, j: nat)
    requires Chained(nodes) && i < j < |nodes|
    ensures nodes[i] != nodes[j]
    decreases |nodes| - j
  {
    if nodes[i] == nodes[j] {
      assert nodes[i].next == Following(nodes, i) && nodes[j].next == Following(nodes, j);
      if j + 1 < |nodes| {
        StandsOnce(nodes, i + 1, j + 1);
      }
    }
  }

  lemma StandsOnlyAt(nodes: seq<Node>, k: nat)
    requires Chained(nodes) && k < |nodes|
    ensures forall i :: 0 <= i < |nodes| && i != k ==> nodes[i] != nodes[k]
  {
    forall i | 0 <= i < |nodes| && i != k ensures nodes[i] != nodes[k] {
      if i < k {
        StandsOnce(nodes, i, k);
      } else {
        StandsOnce(nodes, k, i);
      }
    }
  }

  class List {
    const head: Node
    var rear: Node
    ghost var nodes: seq<Node>

    /** The node in front of position k. */
    ghost function Before(k: nat): Node
      reads this
      requires k <= |nodes|
    {
      if k == 0 then head else nodes[k - 1]
    }

    /** rear is the last reachable node: the head of an empty list. */
    ghost predicate Valid()
      reads this, head, nodes
    {
      head !in nodes && head.next == Following(nodes, -1) && Chained(nodes) && rear == Before(|nodes|)
    }

    ghost function Contents(): seq<Data>
      reads this, nodes
    {
      DataOf(nodes)
    }

    ghost function Footprint(): set<object>
      reads this
    {
      {this, head} + set n | n in nodes
    }

    /** Only the pointer of the node in front of position k may have changed. */
    twostate predicate OnlyRelinked(was: seq<Node>, k: nat)
      reads this, head, was
    {
      && (k > 0 ==> head.next == old(head.next))
      && forall i :: 0 <= i < |was| ==>
          && was[i].data == old(was[i].data)
          && (i != k - 1 ==> was[i].next == old(was[i].next))
    }

    /** Linking p in front of position k gives a proper list again. */
    twostate lemma Inserted(k: nat, new p: Node)
      requires old(Valid()) && k <= old(|nodes|) && OnlyRelinked(old(nodes), k) && p != head && p !in old(nodes)
      requires old(Before(k)).next == p && p.next == old(Following(nodes, k - 1))
      requires nodes == old(nodes)[..k] + [p] + old(nodes)[k..]
      requires rear == if k == old(|nodes|) then p else old(rear)
      ensures Valid()
    {
      var was := old(nodes);
      forall i | 0 <= i < |nodes| ensures nodes[i] != head && nodes[i].next == Following(nodes, i) {
        if i < k {
          assert nodes[i] == was[i];
        } else if i > k {
          assert nodes[i] == was[i - 1];
        }
      }
    }

    twostate lemma InsertedContents(k: nat, new p: Node)
      requires k <= old(|nodes|) && OnlyRelinked(old(nodes), k)
      requires nodes == old(nodes)[..k] + [p] + old(nodes)[k..]
      ensures Contents() == old(Contents())[..k] + [p.data] + old(Contents())[k..]
    {
      var was, xs := old(nodes), old(Contents());
      forall i | 0 <= i < |nodes| ensures nodes[i].data == (xs[..k] + [p.data] + xs[k..])[i] {
        if i < k {
          assert nodes[i] == was[i];
        } else if i > k {
          assert nodes[i] == was[i - 1];
        }
      }
    }

    twostate lemma InsertedFootprint(k: nat, new p: Node)
      requires k <= old(|nodes|) && nodes == old(nodes)[..k] + [p] + old(nodes)[k..]
      ensures Footprint() == old(Footprint()) + {p}
    {
      var was := old(nodes);
      assert nodes[k] == p;
      forall n | n in was ensures n in nodes {
        assert was == was[..k] + was[k..];
      }
    }

    /** Unlinking the node at position k does, too. */
    twostate lemma Unlinked(k: nat)
      requires old(Valid()) && k < old(|nodes|) && OnlyRelinked(old(nodes), k)
      requires old(Before(k)).next == old(Following(nodes, k))
      requires nodes == old(nodes)[..k] + old(nodes)[k + 1..]
      requires rear == if k + 1 == old(|nodes|) then old(Before(k)) else old(rear)
      ensures Valid()
    {
      var was := old(nodes);
      forall i | 0 <= i < |nodes| ensures nodes[i] != head && nodes[i].next == Following(nodes, i) {
        assert nodes[i] == if i < k then was[i] else was[i + 1];
      }
    }

    twostate lemma UnlinkedFootprint(k: nat)
      requires k < old(|nodes|) && nodes == old(nodes)[..k] + old(nodes)[k + 1..]
      ensures Footprint() <= old(Footprint())
    {
      forall n | n in nodes ensures n in old(nodes) {
      }
    }

    twostate lemma UnlinkedContents(k: nat)
      requires k < old(|nodes|) && OnlyRelinked(old(nodes), k)
      requires nodes == old(nodes)[..k] + old(nodes)[k + 1..]
      ensures Contents() == old(Contents())[..k] + old(Contents())[k + 1..]
    {
      var was, xs := old(nodes), old(Contents());
      forall i | 0 <= i < |nodes| ensures nodes[i].data == (xs[..k] + xs[k + 1..])[i] {
        assert nodes[i] == if i < k then was[i] else was[i + 1];
      }
    }

    constructor ()
      ensures Valid() && Contents() == [] && fresh(head)
    {
      var first := new Node(Data("", 0));
      head, rear, nodes := first, first, [];
    }

    method HeadInsert(i: Data)
      requires Valid()
      modifies Footprint()
      ensures Valid() && fresh(Footprint() - old(Footprint()))
      ensures Contents() == [i] + old(Contents())
    {
      var p := new Node(i);
      if head == rear {
        rear := p;
      }
      p.next := head.next;
      head.next := p;
      nodes := nodes[..0] + [p] + nodes[0..];
      assert old(Contents())[..0] == [] && old(Contents())[0..] == old(Contents());
      Inserted(0, p);
      InsertedFootprint(0, p);
      InsertedContents(0, p);
    }

    method TailInsert(i: Data)
      requires Valid()
      modifies Footprint()
      ensures Valid() && fresh(Footprint() - old(Footprint()))
      ensures Contents() == old(Contents()) + [i]
    {
      ghost var n := |nodes|;
      if n > 0 {
        StandsOnlyAt(nodes, n - 1);
      }
      var p := new Node(i);
      if head == rear {
        head.next := p;
      }
      rear.next := p;
      rear := p;
      nodes := nodes[..n] + [p] + nodes[n..];
      assert old(Contents())[..n] == old(Contents()) && old(Contents())[n..] == [];
      Inserted(n, p);
      InsertedFootprint(n, p);
      InsertedContents(n, p);
    }

    /** Links p in behind q, which is in front of position k. */
    method LinkBehind(q: Node, ghost k: nat, p: Node)
      requires Valid() && k <= |nodes| && q == Before(k) && p !in Footprint() && p.next == null
      modifies Footprint(), p
      ensures Valid() && Footprint() == old(Footprint()) + {p}
      ensures Contents() == old(Contents())[..k] + [old(p.data)] + old(Contents())[k..]
    {
      if k > 0 {
        StandsOnlyAt(nodes, k - 1);
      }
      if q.next != null {
        p.next := q.next;
        q.next := p;
      } else if q == rear {
        q.next := p;
        rear := p;
      }
      nodes := nodes[..k] + [p] + nodes[k..];
      Inserted(k, p);
      InsertedFootprint(k, p);
      InsertedContents(k, p);
    }

    method SortInsert(i: Data, less: Order)
      requires Valid()
      modifies Footprint()
      ensures Valid() && fresh(Footprint() - old(Footprint()))
      ensures Contents() == Sorting.SortInsert(old(Contents()), i, less)
    {
      ghost var k, xs := 0, Contents();
      var p := new Node(i);
      var q := head;
      if head != rear {
        while q.next != null
          invariant k <= |nodes| && q == Before(k)
          invariant forall j :: 0 <= j < k ==> !less(i, xs[j])
          decreases |nodes| - k
        {
          if less(p.data, q.next.data) {
            break;
          }
          q := q.next;
          k := k + 1;
        }
      }
      assert k < |nodes| ==> less(i, xs[k]);
      InsertAt(xs, i, less, k);
      LinkBehind(q, k, p);
    }

    /** Deletes the node behind p, which is in front of position k. */
    method DeleteNode(p: Node, ghost k: nat)
      requires Valid() && k < |nodes| && p == Before(k)
      modifies this, Footprint()
      ensures Valid() && Footprint() <= old(Footprint())
      ensures Contents() == old(Contents())[..k] + old(Contents())[k + 1..]
    {
      if k > 0 {
        StandsOnlyAt(nodes, k - 1);
      }
      assert p.next.next == Following(nodes, k);
      p.next := p.next.next;
      nodes := nodes[..k] + nodes[k + 1..];
      if p.next == null {
        rear := p;
      }
      Unlinked(k);
      UnlinkedFootprint(k);
      UnlinkedContents(k);
    }

    /** Deletes the first node whose data equals the key; says whether there was one. */
    method DeleteByKey(key: Data, equal: Order) returns (found: bool)
      requires Valid()
      modifies Footprint()
      ensures Valid() && Footprint() <= old(Footprint())
      ensures Contents() == RemoveFirst(old(Contents()), key, equal)
      ensures found <==> exists i :: 0 <= i < |old(Contents())| && equal(key, old(Contents())[i])
    {
      var p := head;
      ghost var k, xs := 0, Contents();
      while p.next != null
        invariant k <= |nodes| && p == Before(k)
        invariant forall j :: 0 <= j < k ==> !equal(key, xs[j])
        decreases |nodes| - k
      {
        if equal(key, p.next.data) {
          assert equal(key, xs[k]);
          RemoveAt(xs, key, equal, k);
          DeleteNode(p, k);
          return true;
        }
        p := p.next;
        k := k + 1;
      }
      RemoveAt(xs, key, equal, k);
      found := false;
    }

    /** Frees all nodes but the head, each once and in order. */
    method Clear() returns (freed: seq<Node>)
      requires Valid()
      modifies this, head
      ensures Valid() && Contents() == [] && freed == old(nodes)
    {
      ghost var was := nodes;
      freed := [];
      while head.next != null
        invariant |freed| <= |was| && freed == was[..|freed|]
        invariant head.next == Following(was, |freed| - 1)
        invariant forall i :: 0 <= i < |was| ==> was[i] != head && was[i].next == Following(was, i)
        decreases |was| - |freed|
      {
        var q := head.next;
        head.next := q.next;
        freed := freed + [q];
      }
      rear := head;
      nodes := [];
    }
  }

  /** The loop of ls: what readdir returns, in any order, is listed sorted by name. */
  method ListDirectory(listing: seq<Data>) returns (list: List)
    ensures fresh(list) && list.Valid()
    ensures list.Contents() == Build(listing, Compare)
  {
    list := new List();
    assert listing[..0] == [];
    for i := 0 to |listing|
      invariant fresh(list.Footprint()) && list.Valid()
      invariant list.Contents() == Build(listing[..i], Compare)
    {
      list.SortInsert(listing[i], Compare);
      assert listing[..i + 1][..i] == listing[..i];
    }
    assert listing[..|listing|] == listing;
  }
}
