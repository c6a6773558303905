/** The iterator as the code runs it: a stack of indices that is pushed, popped and counted up. */
module Iterators {
  import opened Types
  import opened Multimap
  import opened Tree
  import opened Meaning
  import opened Lookup
  import opened Contents
  import opened Seeking
  import opened Ranking
  import opened Standing
  import opened Scanning
  import opened Cursors
  import opened Blocks
  import opened Trees
  import Leaves
  import Overflow

  // ---------------------------------------------------------------- overflow nodes read on the way

  /** The leaf at the end of the path, with its chain read down to a depth. */
  function TouchAt(n: Node, path: seq<nat>, depth: nat): Node
    requires AtLeaf(n, path)
    decreases n
  {
    match n
    case Leaf(l) => Leaf(Leaves.LeafData(l.pairs, TouchChain(l.chain, depth)))
    case Internal(_, _) => PutChild(n, path[0], TouchAt(n.branches[path[0]].child, path[1..], depth))
  }

  lemma TouchedFull(l: Leaves.Valid, depth: nat)
    ensures var m := Leaves.LeafData(l.pairs, TouchChain(l.chain, depth));
            Leaves.Inv(m) && Leaves.Items(m) == Leaves.Items(l)
  {
  }

  /** Reading overflow nodes changes nothing that is read. */
  lemma {:induction false} TouchKeepsAll(n: Node, path: seq<nat>, depth: nat, k: nat, lo: Option<Key>, hi: Option<Key>)
    requires Iterable(n, lo, hi) && AtLeaf(n, path) && k <= |Leaves.Items(LeafAt(n, path))|
    ensures AtLeaf(TouchAt(n, path, depth), path)
    ensures var r := TouchAt(n, path, depth); var l, m := LeafAt(n, path), LeafAt(r, path);
            && Iterable(r, lo, hi) && Content(r) == Content(n)
            && m == Leaves.LeafData(l.pairs, TouchChain(l.chain, depth)) && Leaves.Items(m) == Leaves.Items(l)
            && ItemsAt(r, path, k) == ItemsAt(n, path, k)
    decreases n
  {
    hide Full, Ordered, Parsed, Content, ContentFrom, Range, Leaves.Items;
    match n
    case Leaf(l) =>
      TouchedFull(l, depth);
      TouchedLeaf(l, depth, lo, hi);
    case Internal(bs, q) =>
      var i := path[0];
      ChildIterable(n, i, lo, hi);
      TouchKeepsAll(bs[i].child, path[1..], depth, k, Lo(bs, i, lo), Hi(bs, i, hi));
      PutKeeps(n, i, TouchAt(bs[i].child, path[1..], depth), lo, hi);
  }

  lemma TouchedLeaf(l: Leaves.Valid, depth: nat, lo: Option<Key>, hi: Option<Key>)
    requires Iterable(Leaf(l), lo, hi)
    ensures var m := Leaf(Leaves.LeafData(l.pairs, TouchChain(l.chain, depth)));
            Iterable(m, lo, hi) && Content(m) == Content(Leaf(l))
  {
    TouchedFull(l, depth);
  }

  /** Counts and queues aside, the same branches. */
  lemma RecountCharged(store: Store, l0: seq<Id>, n: Node, l1: seq<Id>, p: Node, r: Node)
    requires p.Internal? && r.Internal? && |p.branches| == |r.branches|
    requires forall j :: 0 <= j < |p.branches| ==>
               r.branches[j] == p.branches[j].(count := r.branches[j].count)
    requires Backed(store, p) && Charged(l0, n, l1, p)
    ensures Backed(store, r) && Charged(l0, n, l1, r)
  {
    hide Beneath, PageOf, Ids, Fair;
    forall j | 0 <= j < |p.branches|
      ensures BranchUnread(p.branches[j]) == BranchUnread(r.branches[j])
    {
    }
    ListUnreadSame(p.branches, r.branches);
    ListIsBacked(store, p.branches, p.queue);
    ListIsBacked(store, r.branches, r.queue);
    forall j | 0 <= j < |r.branches|
      ensures BranchBacked(store, r.branches[j])
    {
      assert BranchBacked(store, p.branches[j]);
    }
  }

  // ---------------------------------------------------------------- positions in a chain

  /** The chain from the node at a depth on. */
  function Drop(c: Overflow.Chain, depth: nat): Overflow.Chain {
    if c.End? || depth == 0 then c else Drop(c.next, depth - 1)
  }

  lemma {:induction false} DropIs(c: Overflow.Chain, depth: nat, i: nat)
    requires Overflow.Valid(c) && ChainItem(c, depth, i).Some?
    ensures var d := Drop(c, depth);
            && d.Node? && i < |d.values| && ChainItem(c, depth, i) == Some(d.values[i])
            && Drop(c, depth + 1) == d.next
            && (i + 1 < |d.values| ==> ChainItem(c, depth, i + 1).Some?
                                       && ChainOffset(c, depth, i + 1) == ChainOffset(c, depth, i) + 1)
            && (i + 1 == |d.values| && d.next.Node? ==> ChainItem(c, depth + 1, 0).Some?
                                                        && ChainOffset(c, depth + 1, 0) == ChainOffset(c, depth, i) + 1)
            && (i + 1 == |d.values| && d.next.End? ==> ChainOffset(c, depth, i) + 1 == |Overflow.Flat(c)|)
  {
    if depth > 0 {
      DropIs(c.next, depth - 1, i);
    }
  }

  /** Counts aside, the branch of the usual push and that of the iterator's. */
  lemma Recounted(n: Node, i: nat, lo: Option<Key>, hi: Option<Key>)
    requires n.Internal? && i < |n.branches|
    ensures var p, r := Push(n, i, lo, hi, false), CursorPush(n, i, lo, hi);
            && r.queue == p.queue
            && r.branches == p.branches[i := p.branches[i].(count := n.branches[i].count)][0 := r.branches[0]]
            && forall j :: 0 <= j < |p.branches| ==> r.branches[j] == p.branches[j].(count := r.branches[j].count)
  {
    hide ApplyMany;
  }

  class TreeIterator {
    const tree: TreeImpl
    var path: seq<nat>
    var inLeaf: bool
    var leafIndex: nat
    var overflow: seq<nat>

    constructor (tree: TreeImpl, place: Place)
      ensures this.tree == tree && inLeaf && path == place.path
      ensures At(place)
    {
      this.tree, this.path, this.inLeaf := tree, place.path, true;
      match place.spot {
        case OnPair(i) => this.leafIndex, this.overflow := i, [];
        case OnValue(d, i) => this.leafIndex, this.overflow := 0, seq(d + 1, j => if j == d then i else 0);
      }
    }

    /** The iterator is at this place: in a chain, at index i of the node reached by as many steps as its depth. */
    ghost predicate At(place: Place)
      reads this
    {
      && inLeaf && path == place.path
      && match place.spot
         case OnPair(i) => leafIndex == i && overflow == []
         case OnValue(d, i) => leafIndex == 0 && |overflow| == d + 1 && Last(overflow) == i
    }

    ghost predicate TreeOk()
      reads this, tree, tree.engine
    {
      tree.Valid() && tree.root.Some? && Iterable(tree.root.value, None, None)
    }

    /** The position among the items of the leaf. */
    ghost function Index(l: Leaves.Valid): nat
      reads this
    {
      if overflow == [] then leafIndex else |l.pairs| + ChainOffset(l.chain, |overflow| - 1, Last(overflow))
    }

    /** The iterator stands on an item. */
    ghost predicate Stands()
      reads this, tree, tree.engine
    {
      && TreeOk() && inLeaf && AtLeaf(tree.root.value, path)
      && var l := LeafAt(tree.root.value, path);
         if overflow == [] then leafIndex < |l.pairs|
         else ChainItem(l.chain, |overflow| - 1, Last(overflow)).Some?
    }

    /** The items from the current one on. */
    ghost function Remaining(): seq<Pair>
      requires Stands()
      reads this, tree, tree.engine
    {
      IndexInside();
      ItemsAt(tree.root.value, path, Index(LeafAt(tree.root.value, path)))
    }

    lemma IndexInside()
      requires Stands()
      ensures var l := LeafAt(tree.root.value, path); Index(l) < |Leaves.Items(l)|
      ensures var l := LeafAt(tree.root.value, path);
              overflow != [] ==>
                Leaves.Items(l)[Index(l)].value == ChainItem(l.chain, |overflow| - 1, Last(overflow)).value
      ensures var l := LeafAt(tree.root.value, path);
              overflow == [] ==> Leaves.Items(l)[Index(l)] == l.pairs[leafIndex]
    {
      hide tree.Valid, Iterable, LeafAt, AtLeaf, ChainItem, ChainOffset, Leaves.Items;
      SpotInside(LeafAt(tree.root.value, path), leafIndex, overflow);
    }

    /** At a settled place that is in memory, the items from its offset on remain to be read. */
    lemma Placed(place: Place)
      requires TreeOk() && At(place)
      requires Seeking.Stands(tree.root.value, place) && AtLeaf(tree.root.value, place.path)
      ensures 0 <= Offset(tree.root.value, place) < |Content(tree.root.value)|
      ensures Stands() && Remaining() == Content(tree.root.value)[Offset(tree.root.value, place)..]
    {
      hide tree.Valid, Iterable, AtLeaf, LeafAt, ChainItem, ChainOffset, Leaves.Items, Content, ItemsAt, Offset;
      StandItems(tree.root.value, place);
      SpotSome(LeafAt(tree.root.value, path), place.spot);
    }

    predicate Valid()
      reads this
    {
      inLeaf
    }

    /** The value of the current item, from the leaf or from the overflow node. */
    method Value() returns (v: Value)
      requires Stands()
      ensures |Remaining()| > 0 && v == Remaining()[0].value
    {
      IndexInside();
      var l := LeafAt(tree.root.value, path);
      NextInLeaf(tree.root.value, path, Index(l));
      if overflow == [] {
        v := l.pairs[leafIndex].value;
      } else {
        v := ChainItem(l.chain, |overflow| - 1, Last(overflow)).value;
      }
    }

    // ---------------------------------------------------------------- into the tree

    /** travelDown and applyPendingEdits, for the child at the end of the path. */
    method PushAtPath(n: Node, p: seq<nat>, lo: Option<Key>, hi: Option<Key>) returns (r: Node)
      requires OnWay(n, p) && Last(p) < Branches(n, p) && Backed(tree.engine.blocks, n)
      modifies tree`loadedIDs
      ensures r == PushAt(n, p, lo, hi) && Backed(tree.engine.blocks, r)
      ensures Charged(old(tree.loadedIDs), n, tree.loadedIDs, r)
      decreases n
    {
      hide Backed, Unread, Ids, Charged, Push, Range;
      var i := p[0];
      if |p| == 1 {
        var t := tree.TravelDown(n, i);
        ghost var l := tree.loadedIDs;
        var q := tree.ApplyPendingEdits(t, i, lo, hi, false);
        PushTouched(n, i, lo, hi, false);
        NodeTrans(old(tree.loadedIDs), n, l, t, tree.loadedIDs, q);
        Recounted(n, i, lo, hi);
        var cs := q.branches[i := q.branches[i].(count := n.branches[i].count)];
        cs := cs[0 := cs[0].(count := ItemCount(q.branches[i].child))];
        r := Internal(cs, q.queue);
        RecountCharged(tree.engine.blocks, old(tree.loadedIDs), n, tree.loadedIDs, q, r);
      } else {
        BranchParts(tree.engine.blocks, n, i);
        var c := PushAtPath(n.branches[i].child, p[1..], ForkLo(n.branches, i, lo), ForkHi(n.branches, i, hi));
        r := PutChild(n, i, c);
        ChildPut(tree.engine.blocks, old(tree.loadedIDs), tree.loadedIDs, n, i, c);
      }
    }

    /** Reads the overflow nodes down to a depth. */
    method ReadChain(c: Overflow.Chain, depth: nat) returns (r: Overflow.Chain)
      requires ChainBacked(tree.engine.blocks, c)
      modifies tree`loadedIDs
      ensures r == TouchChain(c, depth) && ChainBacked(tree.engine.blocks, r)
      ensures Fair(old(tree.loadedIDs), ChainUnread(c), tree.loadedIDs, ChainUnread(r))
      decreases c
    {
      if c.End? {
        FairSame(tree.loadedIDs, ChainUnread(c), ChainUnread(c));
        return c;
      }
      tree.OverflowNode(c);
      ghost var l := tree.loadedIDs;
      var next := c.next;
      if depth > 0 {
        next := ReadChain(c.next, depth - 1);
      }
      r := Overflow.Node(c.count, c.id, true, c.values, next);
      FairTrans(old(tree.loadedIDs), ChainUnread(c), l, ChainUnread(c.next), tree.loadedIDs, ChainUnread(r));
    }

    method ReadAtPath(n: Node, p: seq<nat>, depth: nat) returns (r: Node)
      requires AtLeaf(n, p) && Backed(tree.engine.blocks, n)
      modifies tree`loadedIDs
      ensures r == TouchAt(n, p, depth) && Backed(tree.engine.blocks, r)
      ensures Charged(old(tree.loadedIDs), n, tree.loadedIDs, r)
      decreases n
    {
      hide Backed, Unread, Ids, Charged, Range;
      match n {
        case Leaf(l) =>
          LeafParts(tree.engine.blocks, l);
          var chain := ReadChain(l.chain, depth);
          TouchedFull(l, depth);
          r := Leaf(Leaves.LeafData(l.pairs, chain));
          LeafParts(tree.engine.blocks, r.leaf);
          LeafCharged(old(tree.loadedIDs), l, tree.loadedIDs, r.leaf);
        case Internal(bs, _) =>
          var i := p[0];
          BranchParts(tree.engine.blocks, n, i);
          var c := ReadAtPath(bs[i].child, p[1..], depth);
          r := PutChild(n, i, c);
          ChildPut(tree.engine.blocks, old(tree.loadedIDs), tree.loadedIDs, n, i, c);
      }
    }

    // ---------------------------------------------------------------- moving on

    method PopOverflows()
      modifies this`overflow
      ensures overflow == []
    {
      while |overflow| > 0 {
        overflow := overflow[..|overflow| - 1];
      }
    }

    /** popCurrentNode: the node at the top goes, and its parent moves on to the next branch. */
    method PopCurrentNode()
      requires overflow == [] && (inLeaf || |path| > 0)
      modifies this`path, this`inLeaf
      ensures !inLeaf
      ensures var up := if old(inLeaf) then old(path) else old(path)[..|old(path)| - 1];
              path == if up == [] then [] else Bump(up)
    {
      if inLeaf {
        inLeaf := false;
      } else {
        path := path[..|path| - 1];
      }
      if |path| > 0 {
        path := path[|path| - 1 := Last(path) + 1];
      }
    }

    /** On the way: what is still to be read lies behind the end of the path. */
    ghost predicate Traveling(rest: seq<Pair>)
      reads this, tree, tree.engine
    {
      && TreeOk() && !inLeaf && overflow == []
      && (if path == [] then rest == [] else OnWay(tree.root.value, path) && ItemsFrom(tree.root.value, path) == rest)
    }

    /** At the first item of a leaf. */
    ghost predicate Arrived(rest: seq<Pair>)
      reads this, tree, tree.engine
    {
      Stands() && overflow == [] && leafIndex == 0 && ItemsAt(tree.root.value, path, 0) == rest
    }

    ghost function Measure(): nat
      reads this, tree
    {
      if tree.root.Some? && !inLeaf && path != [] && OnWay(tree.root.value, path)
      then 1 + StepsLeft(tree.root.value, path) else 0
    }

    /** travelToNextLeaf: down to the next leaf, or off the end of the tree. */
    method TravelToNextLeaf(ghost rest: seq<Pair>)
      requires Traveling(rest)
      modifies this`path, this`inLeaf, this`leafIndex, tree`root, tree`loadedIDs
      ensures TreeOk() && Content(tree.root.value) == old(Content(tree.root.value))
      ensures if rest == [] then !inLeaf else Arrived(rest)
    {
      hide Iterable, Content, Full, OnWay, AtLeaf, ItemsFrom, ItemsAt, StepsLeft;
      while |path| > 0 && !inLeaf
        invariant TreeOk() && Content(tree.root.value) == old(Content(tree.root.value))
        invariant overflow == old(overflow) == []
        invariant if inLeaf then Arrived(rest) else Traveling(rest)
        decreases Measure()
      {
        if Last(path) < Branches(tree.root.value, path) {
          StepDown(rest);
        } else {
          StepUp(rest);
        }
      }
      if inLeaf {
        IndexInside();
        NextInLeaf(tree.root.value, path, 0);
      }
    }

    method StepUp(ghost rest: seq<Pair>)
      requires Traveling(rest) && |path| > 0 && Last(path) >= Branches(tree.root.value, path)
      modifies this`path, this`inLeaf
      ensures Traveling(rest) && Measure() < old(Measure())
    {
      hide Iterable, Content, OnWay, ItemsFrom, StepsLeft;
      PopFrame(tree.root.value, path);
      if |path| > 1 {
        PopSteps(tree.root.value, path);
      }
      PopCurrentNode();
    }

    /** The push, put back into the tree. */
    method PushRoot()
      requires tree.Valid() && tree.root.Some?
      requires OnWay(tree.root.value, path) && Last(path) < Branches(tree.root.value, path)
      modifies tree`root, tree`loadedIDs
      ensures tree.Valid() && tree.root == Some(PushAt(old(tree.root.value), path, None, None))
    {
      hide Backed, Unread, Ids, OnWay, PushAt, Charged;
      var n := tree.root.value;
      ghost var l := tree.loadedIDs;
      var r := PushAtPath(n, path, None, None);
      tree.SetRoot(n, r, l);
    }

    method StepDown(ghost rest: seq<Pair>)
      requires Traveling(rest) && |path| > 0 && Last(path) < Branches(tree.root.value, path)
      modifies this`path, this`inLeaf, this`leafIndex, tree`root, tree`loadedIDs
      ensures TreeOk() && Content(tree.root.value) == old(Content(tree.root.value)) && overflow == []
      ensures if inLeaf then Arrived(rest) else Traveling(rest)
      ensures Measure() < old(Measure())
    {
      hide Iterable, Content, OnWay, AtLeaf, ItemsFrom, ItemsAt, StepsLeft, PushAt, IsLeafAt, tree.Valid;
      ghost var n := tree.root.value;
      DownKeeps(n, path, None, None);
      PushRoot();
      LeafTest(tree.root.value, path);
      if IsLeafAt(tree.root.value, path) {
        inLeaf, leafIndex := true, 0;
      } else {
        DownSteps(n, path, None, None);
        path := path + [0];
      }
    }

    /** overflowNode, for the node at this depth of the leaf's chain. */
    method ReadRoot(depth: nat)
      requires tree.Valid() && tree.root.Some? && AtLeaf(tree.root.value, path)
      modifies tree`root, tree`loadedIDs
      ensures tree.Valid() && tree.root == Some(TouchAt(old(tree.root.value), path, depth))
    {
      hide Backed, Unread, Ids, AtLeaf, TouchAt, Charged;
      var n := tree.root.value;
      ghost var l := tree.loadedIDs;
      var r := ReadAtPath(n, path, depth);
      tree.SetRoot(n, r, l);
    }

    /** pushOverflow: on to the first value of the overflow node at this depth. */
    method PushOverflow(ghost k: nat)
      requires TreeOk() && inLeaf && AtLeaf(tree.root.value, path)
      requires var l := LeafAt(tree.root.value, path);
               k <= |Leaves.Items(l)| && ChainItem(l.chain, |overflow|, 0).Some? &&
                 k == |l.pairs| + ChainOffset(l.chain, |overflow|, 0)
      modifies this`overflow, tree`root, tree`loadedIDs
      ensures Stands() && Remaining() == ItemsAt(old(tree.root.value), path, k)
      ensures Content(tree.root.value) == old(Content(tree.root.value))
    {
      hide Iterable, Content, AtLeaf, ItemsAt, TouchAt, Leaves.Items, tree.Valid;
      ghost var n := tree.root.value;
      TouchKeepsAll(n, path, |overflow|, k, None, None);
      TouchedItem(LeafAt(n, path).chain, |overflow|, |overflow|, 0);
      ReadRoot(|overflow|);
      overflow := overflow + [0];
      IndexInside();
    }

    /** Behind the last item of the leaf and its chain. */
    method LeaveLeaf(ghost rest: seq<Pair>)
      requires TreeOk() && inLeaf && AtLeaf(tree.root.value, path)
      requires ItemsAt(tree.root.value, path, |Leaves.Items(LeafAt(tree.root.value, path))|) == rest
      modifies this`path, this`inLeaf, this`leafIndex, this`overflow, tree`root, tree`loadedIDs
      ensures TreeOk() && Content(tree.root.value) == old(Content(tree.root.value))
      ensures if rest == [] then !inLeaf else Stands() && Remaining() == rest
    {
      hide Iterable, Content, AtLeaf, OnWay, ItemsAt, ItemsFrom, Leaves.Items, tree.Valid;
      if |path| > 0 {
        PopLeaf(tree.root.value, path);
      } else {
        assert path == [];
        RootLeafDone(tree.root.value);
      }
      PopOverflows();
      PopCurrentNode();
      TravelToNextLeaf(rest);
    }

    /** advanceCurrent: into the overflow chain, or to the next leaf. */
    method AdvanceCurrent(ghost rest: seq<Pair>)
      requires TreeOk() && inLeaf && AtLeaf(tree.root.value, path)
      requires var l := LeafAt(tree.root.value, path);
               var k := |l.pairs| + if overflow == [] then 0 else ChainOffset(l.chain, |overflow| - 1, Last(overflow));
               && k <= |Leaves.Items(l)| && ItemsAt(tree.root.value, path, k) == rest
               && (if Drop(l.chain, |overflow|).End? then k == |Leaves.Items(l)|
                   else ChainItem(l.chain, |overflow|, 0).Some? && k == |l.pairs| + ChainOffset(l.chain, |overflow|, 0))
      modifies this`path, this`inLeaf, this`leafIndex, this`overflow, tree`root, tree`loadedIDs
      ensures TreeOk() && Content(tree.root.value) == old(Content(tree.root.value))
      ensures if rest == [] then !inLeaf else Stands() && Remaining() == rest
    {
      hide Iterable, Content, AtLeaf, ItemsAt, Leaves.Items, tree.Valid, ChainItem, ChainOffset, Drop;
      var l := LeafAt(tree.root.value, path);
      if Drop(l.chain, |overflow|).Node? {
        PushOverflow(|l.pairs| + ChainOffset(l.chain, |overflow|, 0));
        IndexInside();
        NextInLeaf(tree.root.value, path, Index(LeafAt(tree.root.value, path)));
      } else {
        LeaveLeaf(rest);
      }
    }

    /**
     * next(): what remains to be read loses exactly its first item; behind the
     * last item the iterator is not valid any more.
     */
    method Next()
      requires Stands()
      modifies this`path, this`inLeaf, this`leafIndex, this`overflow, tree`root, tree`loadedIDs
      ensures TreeOk() && Content(tree.root.value) == old(Content(tree.root.value))
      ensures |old(Remaining())| > 0
      ensures if |old(Remaining())| == 1 then !inLeaf else Stands() && Remaining() == old(Remaining())[1..]
    {
      hide Iterable, Content, AtLeaf, ItemsAt, Leaves.Items, tree.Valid;
      var l := LeafAt(tree.root.value, path);
      ghost var k := Index(l);
      IndexInside();
      NextInLeaf(tree.root.value, path, k);
      ghost var rest := ItemsAt(tree.root.value, path, k + 1);
      assert Remaining()[1..] == rest;
      if overflow == [] {
        leafIndex := leafIndex + 1;
        LeafEnd(l);
        if leafIndex >= |l.pairs| {
          AdvanceCurrent(rest);
        } else {
          MoreInLeaf(rest);
        }
      } else {
        var d, i := |overflow| - 1, Last(overflow);
        DropIs(l.chain, d, i);
        ChainEnd(l, d, i);
        overflow := overflow[|overflow| - 1 := Last(overflow) + 1];
        if Last(overflow) >= |Drop(l.chain, d).values| {
          ExhaustedOffset(l.chain, d, i);
          AdvanceCurrent(rest);
        } else {
          ChainEnd(l, d, i + 1);
          MoreInChain(rest);
        }
      }
    }

    /** Either on the first of these items, or at the end because there are none. */
    ghost predicate StandsBefore(rest: seq<Pair>)
      reads this, tree, tree.engine
    {
      TreeOk() && if inLeaf then Stands() && Remaining() == rest else rest == []
    }

    /** Reads the current value, and moves on. */
    method Take(ghost rest: seq<Pair>) returns (v: Value)
      requires inLeaf && StandsBefore(rest)
      modifies this`path, this`inLeaf, this`leafIndex, this`overflow, tree`root, tree`loadedIDs
      ensures |rest| > 0 && v == rest[0].value && StandsBefore(rest[1..])
    {
      hide Iterable, Content, AtLeaf, ItemsAt, Leaves.Items, tree.Valid;
      v := Value();
      Next();
    }

    lemma MoreInLeaf(rest: seq<Pair>)
      requires TreeOk() && inLeaf && AtLeaf(tree.root.value, path) && overflow == []
      requires leafIndex < |LeafAt(tree.root.value, path).pairs| <= |Leaves.Items(LeafAt(tree.root.value, path))|
      requires ItemsAt(tree.root.value, path, leafIndex) == rest
      ensures rest != [] && Stands() && Remaining() == rest
    {
      hide AtLeaf, ItemsAt, Leaves.Items, Iterable;
      NextInLeaf(tree.root.value, path, leafIndex);
    }

    lemma MoreInChain(rest: seq<Pair>)
      requires TreeOk() && inLeaf && AtLeaf(tree.root.value, path) && overflow != []
      requires var l := LeafAt(tree.root.value, path);
               && ChainItem(l.chain, |overflow| - 1, Last(overflow)).Some? && Index(l) < |Leaves.Items(l)|
               && ItemsAt(tree.root.value, path, Index(l)) == rest
      ensures rest != [] && Stands() && Remaining() == rest
    {
      hide AtLeaf, ItemsAt, Leaves.Items, Iterable;
      NextInLeaf(tree.root.value, path, Index(LeafAt(tree.root.value, path)));
    }
  }

  function ValuesOf(ps: seq<Pair>): (r: seq<Value>)
    ensures |r| == |ps| && forall i :: 0 <= i < |ps| ==> r[i] == ps[i].value
  {
    seq(|ps|, i requires 0 <= i < |ps| => ps[i].value)
  }

  /** begin(). */
  method Begin(tree: TreeImpl) returns (it: TreeIterator)
    requires tree.Valid() && Iterable(tree.Current(), None, None)
    modifies tree`root, tree`loadedIDs
    ensures fresh(it) && it.tree == tree && it.Stands() && it.Remaining() == Content(old(tree.Current()))
    ensures Content(tree.root.value) == Content(old(tree.Current()))
  {
    hide Backed, Unread, Ids, Find, Charged, Content, AtLeaf, ItemsAt, Full, Ordered, Parsed;
    var n := tree.Root();
    ghost var l := tree.loadedIDs;
    FirstStands(n, None, None);
    var t := tree.FindRec(n, None, None, None);
    tree.SetRoot(n, t, l);
    it := new TreeIterator(tree, Place(FirstPath(t), OnPair(0)));
  }

  lemma SpotSome(l: Leaves.Valid, s: Spot)
    requires LeafItem(l, s).Some?
    ensures s.OnPair? ==> s.i < |l.pairs|
    ensures s.OnValue? ==> ChainItem(l.chain, s.depth, s.i).Some?
  {
  }

  /**
   * seek(m).  There is an iterator if and only if seek finds a place, and it is
   * at that place, with the contents from its offset on still to be read: from
   * item m on where every look counts right.
   */
  method SeekIterator(tree: TreeImpl, m: nat) returns (it: TreeIterator?)
    requires tree.Valid()
    modifies tree`root, tree`loadedIDs
    ensures tree.Valid() && tree.root.Some? && tree.Current() == Seek(old(tree.Current()), m, None, None).0
    ensures it != null ==> fresh(it) && it.tree == tree
    ensures var place := Seek(old(tree.Current()), m, None, None).1;
            if place.None? then it == null else it != null && it.At(place.value)
    ensures var place := Seek(old(tree.Current()), m, None, None).1;
            it != null && Ordered(old(tree.Current()), None, None) && Parsed(old(tree.Current())) &&
              Full(tree.Current()) ==>
              it.Stands() && 0 <= Offset(tree.Current(), place.value) < |Content(tree.Current())|
              && it.Remaining() == Content(tree.Current())[Offset(tree.Current(), place.value)..]
    ensures Ordered(old(tree.Current()), None, None) && Parsed(old(tree.Current())) && Sure(old(tree.Current())) ==>
              && (it != null <==> m < |Content(tree.Current())|)
              && (it != null && Full(tree.Current()) ==>
                    it.Stands() && it.Remaining() == Content(tree.Current())[m..])
    ensures Iterable(old(tree.Current()), None, None) && Seekable(old(tree.Current()), None, None) ==>
              && (it != null <==> m < |Content(old(tree.Current()))|)
              && (it != null ==> it.Stands() && it.Remaining() == Content(old(tree.Current()))[m..])
  {
    hide Backed, Ids, Unread, Seek, Content, Full, Ordered, Parsed, Sure, Seekable, Offset, AtLeaf, Seeking.Stands;
    ghost var n := tree.Current();
    var place := tree.SeekTo(m);
    var t := tree.Root();
    it := null;
    if place.Some? {
      it := new TreeIterator(tree, place.value);
    }
    if Ordered(n, None, None) && Parsed(n) {
      SeekStands(n, m, None, None);
      SeekOrdered(n, m, None, None);
      if place.Some? && Full(t) {
        it.Placed(place.value);
      }
      if Sure(n) {
        SeekReads(n, m, None, None);
      }
      if Full(n) && Seekable(n, None, None) {
        SeekBeyond(n, m, None, None);
        SeekKeeps(n, m, None, None);
        SeekableCalm(n, None, None);
        CalmReads(n, m, None, None);
      }
    }
  }

  /**
   * find(key).  There is an iterator if and only if the key is in the contents;
   * it is at the first item of the key, with the contents from there on still to
   * be read.
   */
  method FindIterator(tree: TreeImpl, key: Key) returns (it: TreeIterator?)
    requires tree.Valid()
    modifies tree`root, tree`loadedIDs
    ensures tree.Valid() && tree.root.Some? && tree.Current() == Lookup.Get(old(tree.Current()), key).0
    ensures it != null ==> fresh(it) && it.tree == tree && it.At(PlaceOf(tree.Current(), key))
    ensures it == null <==> Lookup.Get(old(tree.Current()), key).1.None?
    ensures Iterable(old(tree.Current()), None, None) ==>
              var all := Content(old(tree.Current())); var o := LowerBound(all, key);
              && Content(tree.Current()) == all
              && (it != null <==> o < |all| && all[o].key == key)
              && (it != null ==> it.Stands() && it.Remaining() == all[o..])
  {
    hide Backed, Ids, Unread, Find, Content, Full, Ordered, Parsed, Offset, AtLeaf, Seeking.Stands, ValueAt, LowerBound,
      PlaceOf;
    ghost var n := tree.Current();
    var found := tree.Get(key);
    var t := tree.Root();
    it := null;
    if found.Some? {
      it := new TreeIterator(tree, PlaceOf(t, key));
    }
    if Iterable(n, None, None) {
      GetFirst(n, key);
      FindKeeps(n, Some(key), None, None);
      assert Within(None, None, key);
      if found.Some? {
        FindStands(n, key, None, None);
        it.Placed(PlaceOf(t, key));
      }
    }
  }

  lemma ValuesStep(values: seq<Value>, rest: seq<Pair>, all: seq<Pair>)
    requires |rest| > 0 && values + ValuesOf(rest) == ValuesOf(all)
    ensures (values + [rest[0].value]) + ValuesOf(rest[1..]) == ValuesOf(all)
  {
    var v, t := [rest[0].value], ValuesOf(rest[1..]);
    assert ValuesOf(rest) == v + t;
    Regroup(values, v, t);
  }

  /** Iterating to the end reads every value that remains, in order. */
  method ReadOn(it: TreeIterator, ghost all: seq<Pair>) returns (values: seq<Value>)
    requires it.StandsBefore(all)
    modifies it`path, it`inLeaf, it`leafIndex, it`overflow, it.tree`root, it.tree`loadedIDs
    ensures it.tree.Valid() && values == ValuesOf(all) && it.StandsBefore([])
  {
    hide Backed, Ids, Unread, Content, AtLeaf, ItemsAt, Iterable, ValuesOf;
    values := [];
    ghost var rest := all;
    assert [] + ValuesOf(all) == ValuesOf(all);
    while it.Valid()
      invariant values + ValuesOf(rest) == ValuesOf(all)
      invariant it.StandsBefore(rest)
      decreases |rest|
    {
      var v := it.Take(rest);
      ValuesStep(values, rest, all);
      values := values + [v];
      rest := rest[1..];
    }
    assert ValuesOf([]) == [] by { NoValues(); }
    assert values + [] == values;
  }

  /** From begin() to the end: every value of the contents. */
  method ReadAll(tree: TreeImpl) returns (values: seq<Value>)
    requires tree.Valid() && Iterable(tree.Current(), None, None)
    modifies tree`root, tree`loadedIDs
    ensures tree.Valid() && values == ValuesOf(Content(old(tree.Current())))
  {
    hide Backed, Ids, Unread, Content, AtLeaf, ItemsAt, Iterable, ValuesOf;
    ghost var all := Content(tree.Current());
    var it := Begin(tree);
    values := ReadOn(it, all);
  }

  /** From seek(m) to the end: the values of all items but the first m. */
  method ReadFrom(tree: TreeImpl, m: nat) returns (values: seq<Value>)
    requires tree.Valid() && Iterable(tree.Current(), None, None) && Seekable(tree.Current(), None, None)
    modifies tree`root, tree`loadedIDs
    ensures tree.Valid()
    ensures var all := Content(old(tree.Current())); values == ValuesOf(if m < |all| then all[m..] else [])
  {
    hide Backed, Ids, Unread, Content, AtLeaf, ItemsAt, Iterable, ValuesOf, Seekable, Seek, Sure, Full;
    ghost var all := Content(tree.Current());
    var it := SeekIterator(tree, m);
    if it == null {
      values := [];
      NoValues();
    } else {
      values := ReadOn(it, all[m..]);
    }
  }

  lemma NoValues()
    ensures ValuesOf([]) == []
  {
  }

  /** Whether the node under the path is a leaf. */
  function IsLeafAt(n: Node, path: seq<nat>): bool
    decreases n
  {
    if |path| == 0 || n.Leaf? then n.Leaf? && |path| == 0
    else path[0] < |n.branches| && IsLeafAt(n.branches[path[0]].child, path[1..])
  }

  lemma {:induction false} LeafTest(n: Node, path: seq<nat>)
    ensures AtLeaf(n, path) ==> IsLeafAt(n, path)
    ensures OnWay(n, path + [0]) ==> !IsLeafAt(n, path)
    decreases n
  {
    if n.Internal? && |path| > 0 && path[0] < |n.branches| {
      assert (path + [0])[1..] == path[1..] + [0];
      LeafTest(n.branches[path[0]].child, path[1..]);
    }
  }

  /** At the end of the pairs: the chain comes next, or nothing. */
  lemma LeafEnd(l: Leaves.Valid)
    ensures Leaves.Count(l) == |Leaves.Items(l)|
    ensures if Drop(l.chain, 0).End? then |l.pairs| == |Leaves.Items(l)|
            else ChainItem(l.chain, 0, 0).Some? && ChainOffset(l.chain, 0, 0) == 0
    ensures |l.pairs| <= |Leaves.Items(l)|
  {
    Overflow.CountIsLength(l.chain);
  }

  lemma ChainEnd(l: Leaves.Valid, d: nat, i: nat)
    requires |l.pairs| > 0 && ChainItem(l.chain, d, i).Some?
    ensures |Leaves.Items(l)| == |l.pairs| + |Overflow.Flat(l.chain)|
    ensures ChainOffset(l.chain, d, i) < |Overflow.Flat(l.chain)|
  {
    ChainOffsetIs(l.chain, d, i);
  }

  /** One past the last value of a node. */
  lemma {:induction false} ExhaustedOffset(c: Overflow.Chain, depth: nat, i: nat)
    ensures ChainOffset(c, depth, i + 1) == ChainOffset(c, depth, i) + 1
  {
    if c.Node? && depth > 0 {
      ExhaustedOffset(c.next, depth - 1, i);
    }
  }

  /** Where a position in a leaf, or in its chain, is among the items of the leaf. */
  lemma SpotInside(l: Leaves.Valid, leafIndex: nat, overflow: seq<nat>)
    requires if overflow == [] then leafIndex < |l.pairs|
             else ChainItem(l.chain, |overflow| - 1, Last(overflow)).Some?
    ensures var i := if overflow == [] then leafIndex
                     else |l.pairs| + ChainOffset(l.chain, |overflow| - 1, Last(overflow));
            && i < |Leaves.Items(l)|
            && (overflow == [] ==> Leaves.Items(l)[i] == l.pairs[leafIndex])
            && (overflow != [] ==>
                  Leaves.Items(l)[i].value == ChainItem(l.chain, |overflow| - 1, Last(overflow)).value)
  {
    if overflow != [] {
      ChainOffsetIs(l.chain, |overflow| - 1, Last(overflow));
    }
  }
}
