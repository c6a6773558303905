/**
 * Storing a tree and reading it back.  Parsing drops the first separator of an
 * internal node, takes every queued edit as not guaranteed, and loads no child.
 */
module Reloading {
  import opened Types
  import opened Multimap
  import opened Tree
  import opened Meaning
  import opened Lookup
  import opened Counting
  import opened BranchLists
  import opened Flags
  import Leaves
  import Overflow

  function Unloaded(c: Overflow.Chain): (r: Overflow.Chain)
    ensures Overflow.Valid(c) ==> Overflow.Valid(r)
    ensures Overflow.Flat(r) == Overflow.Flat(c) && Overflow.Count(r) == Overflow.Count(c)
  {
    if c.End? then c else Overflow.Node(c.count, c.id, false, c.values, Unloaded(c.next))
  }

  function ReloadedLeaf(l: Leaves.Valid): Leaves.Valid {
    Leaves.LeafData(l.pairs, Unloaded(l.chain))
  }

  /** The tree as it comes back from its pages. */
  function Reloaded(n: Node): Node {
    match n
    case Leaf(l) => Leaf(ReloadedLeaf(l))
    case Internal(bs, q) =>
      Internal(seq(|bs|, i requires 0 <= i < |bs| =>
                 Branch(if i == 0 then None else bs[i].minKey, bs[i].count, bs[i].id, false, Reloaded(bs[i].child))),
               PlainEdits(q))
  }

  lemma ReloadedParts(n: Node, i: nat)
    requires n.Internal? && i < |n.branches|
    ensures var r, b := Reloaded(n), n.branches[i];
            && r.Internal? && |r.branches| == |n.branches| && r.queue == PlainEdits(n.queue)
            && r.branches[i] == Branch(if i == 0 then None else b.minKey, b.count, b.id, false, Reloaded(b.child))
  {
  }

  // ---------------------------------------------------------------- order

  lemma {:induction false} ReloadedParsed(n: Node)
    ensures Parsed(Reloaded(n))
  {
    if n.Internal? {
      forall i | 0 <= i < |n.branches|
        ensures Parsed(Reloaded(n.branches[i].child))
      {
        ReloadedParsed(n.branches[i].child);
      }
    }
  }

  lemma ReloadedSeparators(n: Node, lo: Option<Key>, hi: Option<Key>)
    requires n.Internal? && Separators(n.branches, lo, hi)
    ensures Separators(Reloaded(n).branches, lo, hi)
  {
    var bs, cs := n.branches, Reloaded(n).branches;
    forall i, j | 0 <= i < j < |cs| && cs[i].minKey.Some?
      ensures cs[j].minKey.Some? && cs[i].minKey.value < cs[j].minKey.value
    {
      assert cs[i].minKey == bs[i].minKey && cs[j].minKey == bs[j].minKey;
    }
  }

  lemma PlainSorted(q: seq<Edit>, lo: Option<Key>, hi: Option<Key>)
    requires SortedEdits(q) && EditsWithin(q, lo, hi)
    ensures SortedEdits(PlainEdits(q)) && EditsWithin(PlainEdits(q), lo, hi)
  {
    var r := PlainEdits(q);
    assert forall i :: 0 <= i < |q| ==> r[i].key == q[i].key;
  }

  lemma {:induction false} ReloadedOrdered(n: Node, lo: Option<Key>, hi: Option<Key>)
    requires Ordered(n, lo, hi)
    ensures Ordered(Reloaded(n), lo, hi)
    decreases n
  {
    if n.Internal? {
      var bs, r := n.branches, Reloaded(n);
      ReloadedSeparators(n, lo, hi);
      PlainSorted(n.queue, lo, hi);
      forall i | 0 <= i < |bs|
        ensures Ordered(r.branches[i].child, Lo(r.branches, i, lo), Hi(r.branches, i, hi))
      {
        ReloadedOrdered(bs[i].child, Lo(bs, i, lo), Hi(bs, i, hi));
        assert Lo(r.branches, i, lo) == Lo(bs, i, lo) && Hi(r.branches, i, hi) == Hi(bs, i, hi);
      }
    }
  }

  // ---------------------------------------------------------------- meaning

  /** Flags play no part in what an edit does. */
  lemma {:induction false} PlainSteps(es: seq<Edit>, b: Values, c: Values)
    ensures Steps(PlainEdits(es), b, c) <==> Steps(es, b, c)
  {
    if |es| > 0 {
      assert PlainEdits(es)[1..] == PlainEdits(es[1..]);
      forall m
        ensures Step(PlainEdit(es[0]), b, m) <==> Step(es[0], b, m)
      {
      }
      forall m {
        PlainSteps(es[1..], m, c);
      }
    }
  }

  lemma {:induction false} PlainOn(q: seq<Edit>, k: Key)
    ensures EditsOn(PlainEdits(q), k) == PlainEdits(EditsOn(q, k))
  {
    if |q| > 0 {
      assert PlainEdits(q)[1..] == PlainEdits(q[1..]);
      PlainOn(q[1..], k);
      PlainConcat(If(q[0], k), EditsOn(q[1..], k));
    }
  }

  lemma PlainConcat(a: seq<Edit>, b: seq<Edit>)
    ensures PlainEdits(a + b) == PlainEdits(a) + PlainEdits(b)
  {
  }

  lemma ReloadedRoute(n: Node, lo: Option<Key>, hi: Option<Key>, k: Key)
    requires n.Internal? && |n.branches| > 0 && Separators(n.branches, lo, hi) && Within(lo, hi, k)
    ensures Route(Reloaded(n).branches, k) == Route(n.branches, k)
  {
    hide BranchLower, Route;
    var bs, cs, r := n.branches, Reloaded(n).branches, Route(n.branches, k);
    ReloadedSeparators(n, lo, hi);
    RouteIs(bs, lo, hi, k, r);
    assert Lo(cs, r, lo) == Lo(bs, r, lo) && Hi(cs, r, hi) == Hi(bs, r, hi);
    RouteIs(cs, lo, hi, k, r);
  }

  lemma {:induction false} ReloadedMeans(n: Node, lo: Option<Key>, hi: Option<Key>, k: Key)
    requires Ordered(n, lo, hi) && Within(lo, hi, k)
    ensures Pending(Reloaded(n), k) == PlainEdits(Pending(n, k))
    ensures Held(Reloaded(n), k) == Held(n, k)
    decreases n
  {
    match n
    case Leaf(l) =>
    case Internal(bs, q) =>
      var i := Route(bs, k);
      RouteIs(bs, lo, hi, k, i);
      ReloadedRoute(n, lo, hi, k);
      ReloadedParts(n, i);
      ReloadedMeans(bs[i].child, Lo(bs, i, lo), Hi(bs, i, hi), k);
      PlainOn(q, k);
      PlainConcat(Pending(bs[i].child, k), EditsOn(q, k));
  }

  /** Storing and reading back keeps exactly what the tree stands for. */
  lemma ReloadedSame(n: Node, lo: Option<Key>, hi: Option<Key>, k: Key, c: Values)
    requires Ordered(n, lo, hi) && Within(lo, hi, k)
    ensures Denotes(Reloaded(n), k, c) <==> Denotes(n, k, c)
  {
    ReloadedMeans(n, lo, hi, k);
    PlainSteps(Pending(n, k), Held(n, k), c);
  }

  // ---------------------------------------------------------------- trees that differ in flags, counts and ids

  lemma {:induction false} PlainMeans(n: Node, k: Key)
    ensures Pending(Plain(n), k) == PlainEdits(Pending(n, k)) && Held(Plain(n), k) == Held(n, k)
    decreases n
  {
    match n
    case Leaf(l) => PlainChainKeeps(l.chain);
    case Internal(bs, q) =>
      PlainIs(n);
      RouteSame(bs, PlainBranches(bs), k);
      PlainOn(q, k);
      if |bs| > 0 {
        var i := Route(bs, k);
        PlainMeans(bs[i].child, k);
        PlainConcat(Pending(bs[i].child, k), EditsOn(q, k));
      }
  }

  lemma LikeMeans(n: Node, m: Node, k: Key, c: Values)
    requires Like(n, m)
    ensures Denotes(n, k, c) <==> Denotes(m, k, c)
  {
    hide Plain, PlainEdits, Pending, Held;
    PlainMeans(n, k);
    PlainMeans(m, k);
    PlainSteps(Pending(n, k), Held(n, k), c);
    PlainSteps(Pending(m, k), Held(m, k), c);
  }

  lemma {:induction false} LikeOrdered(n: Node, m: Node, lo: Option<Key>, hi: Option<Key>)
    requires Like(n, m) && Ordered(n, lo, hi)
    ensures Ordered(m, lo, hi)
    decreases n
  {
    hide Like;
    LikeParts(n, m);
    if n.Internal? {
      var bs, cs := n.branches, m.branches;
      LikeSorted(n.queue, m.queue, lo, hi);
      LikeSeparators(bs, cs, lo, hi);
      forall i | 0 <= i < |cs|
        ensures Ordered(cs[i].child, Lo(cs, i, lo), Hi(cs, i, hi))
      {
        LikeOrdered(bs[i].child, cs[i].child, Lo(bs, i, lo), Hi(bs, i, hi));
        assert Lo(bs, i, lo) == Lo(cs, i, lo) && Hi(bs, i, hi) == Hi(cs, i, hi);
      }
    }
  }

  lemma LikeSorted(q: seq<Edit>, r: seq<Edit>, lo: Option<Key>, hi: Option<Key>)
    requires LikeEdits(q, r) && SortedEdits(q) && EditsWithin(q, lo, hi)
    ensures SortedEdits(r) && EditsWithin(r, lo, hi)
  {
    forall i | 0 <= i < |q|
      ensures q[i].key == r[i].key
    {
      assert PlainEdit(q[i]).key == PlainEdit(r[i]).key;
    }
  }

  lemma LikeSeparators(bs: seq<Branch>, cs: seq<Branch>, lo: Option<Key>, hi: Option<Key>)
    requires LikeBranches(bs, cs) && Separators(bs, lo, hi)
    ensures Separators(cs, lo, hi)
  {
    assert forall i :: 0 <= i < |bs| ==> bs[i].minKey == cs[i].minKey;
  }

  // ---------------------------------------------------------------- counts

  /** In no node below this one do the guaranteed edits still queued change the number of items. */
  ghost predicate EvenBelow(n: Node) {
    n.Internal? ==>
      forall i :: 0 <= i < |n.branches| ==>
        (n.branches[i].child.Internal? ==> GuaranteedDeltas(n.branches[i].child.queue) == 0) &&
          EvenBelow(n.branches[i].child)
  }

  ghost predicate EvenAt(c: Node) {
    (c.Internal? ==> GuaranteedDeltas(c.queue) == 0) && EvenBelow(c)
  }

  ghost predicate CountKept(n: Node, i: nat)
    requires n.Internal? && i < |n.branches|
  {
    var b := Reloaded(n).branches[i];
    b.count == ItemCount(b.child) && Counted(b.child)
  }

  lemma {:induction false} PlainDeltas(q: seq<Edit>)
    ensures GuaranteedDeltas(PlainEdits(q)) == 0
  {
    if |q| > 0 {
      assert PlainEdits(q)[1..] == PlainEdits(q[1..]);
      PlainDeltas(q[1..]);
    }
  }

  lemma {:induction false} SumSame(bs: seq<Branch>, cs: seq<Branch>)
    requires |bs| == |cs| && forall i :: 0 <= i < |bs| ==> bs[i].count == cs[i].count
    ensures BranchSum(bs) == BranchSum(cs)
  {
    if |bs| > 0 {
      SumSame(bs[1..], cs[1..]);
    }
  }

  /** A node read back no longer counts the guaranteed edits in its queue. */
  lemma ReloadedCount(n: Node)
    ensures ItemCount(n) - ItemCount(Reloaded(n)) == if n.Internal? then GuaranteedDeltas(n.queue) else 0
  {
    if n.Internal? {
      PlainDeltas(n.queue);
      SumSame(n.branches, Reloaded(n).branches);
    }
  }

  /**
   * The counts stored in the branches stay right through a write and a read
   * exactly when nothing guaranteed that changes a count is left in a queue
   * below the root.
   */
  lemma {:induction false} ReloadedCounted(n: Node)
    requires Counted(n)
    ensures Counted(Reloaded(n)) <==> EvenBelow(n)
    decreases n
  {
    if n.Internal? {
      var bs, cs := n.branches, Reloaded(n).branches;
      forall i | 0 <= i < |bs|
        ensures CountKept(n, i) <==> EvenAt(bs[i].child)
      {
        ReloadedParts(n, i);
        ReloadedCounted(bs[i].child);
        ReloadedCount(bs[i].child);
      }
      EachCounted(n);
    }
  }

  /** A guaranteed insert that waits below the root: the tree read back counts it no more. */
  lemma ReloadedMiscounts(k: Key, v: Value)
    ensures var c := Internal([Branch(None, 0, 0, true, Leaf(Leaves.LeafData([], Overflow.End)))],
            [Edit(INSERT, k, v, true)]);
            var n := Internal([Branch(None, 1, 1, true, c)], []);
            Ordered(n, None, None) && Counted(n) && !Counted(Reloaded(n))
  {
    hide Reloaded;
    var c := Internal([Branch(None, 0, 0, true, Leaf(Leaves.LeafData([], Overflow.End)))], [Edit(INSERT, k, v, true)]);
    var n := Internal([Branch(None, 1, 1, true, c)], []);
    assert c.queue[1..] == [] && c.branches[1..] == [];
    assert BranchSum(c.branches) == 0 && GuaranteedDeltas(c.queue) == 1;
    assert ItemCount(c.branches[0].child) == 0 && Counted(c);
    assert Ordered(c, None, None);
    assert n.branches[0].child == c;
    ReloadedCounted(n);
  }

  lemma EachCounted(n: Node)
    requires n.Internal? && Counted(n)
    requires forall i :: 0 <= i < |n.branches| ==> (CountKept(n, i) <==> EvenAt(n.branches[i].child))
    ensures Counted(Reloaded(n)) <==> EvenBelow(n)
  {
    hide ItemCount;
    var bs, cs := n.branches, Reloaded(n).branches;
    if EvenBelow(n) {
      forall i | 0 <= i < |cs|
        ensures cs[i].count == ItemCount(cs[i].child) && Counted(cs[i].child)
      {
        assert EvenAt(bs[i].child) && CountKept(n, i);
      }
    }
    if Counted(Reloaded(n)) {
      forall i | 0 <= i < |bs|
        ensures EvenAt(bs[i].child)
      {
        assert CountKept(n, i);
      }
    }
  }
}
