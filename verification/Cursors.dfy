/**
 * Iteration.  A position is a path of branch indices from the root, with or
 * without a leaf at its end; what remains to be read is a sequence of items.
 */
module Cursors {
  import opened Types
  import opened Multimap
  import opened Tree
  import opened Meaning
  import opened Lookup
  import opened Contents
  import opened Counting
  import opened Seeking
  import Leaves
  import Overflow

  // ---------------------------------------------------------------- positions

  /**
   * The path ends at an index of an internal node, possibly behind its last
   * branch.  Its nodes are in memory, and nothing above is queued for them.
   */
  ghost predicate OnWay(n: Node, path: seq<nat>)
    decreases n
  {
    && n.Internal? && |path| > 0 && path[0] <= |n.branches|
    && (|path| > 1 ==>
          && path[0] < |n.branches| && n.branches[path[0]].loaded && Range(n.branches, n.queue, path[0]) == []
          && OnWay(n.branches[path[0]].child, path[1..]))
  }

  /** The path ends at a leaf. */
  ghost predicate AtLeaf(n: Node, path: seq<nat>)
    decreases n
  {
    match n
    case Leaf(_) => path == []
    case Internal(bs, q) =>
      |path| > 0 && path[0] < |bs| && bs[path[0]].loaded && Range(bs, q, path[0]) == [] &&
        AtLeaf(bs[path[0]].child, path[1..])
  }

  function LeafAt(n: Node, path: seq<nat>): Leaves.Valid
    requires AtLeaf(n, path)
    decreases n
  {
    if n.Leaf? then n.leaf else LeafAt(n.branches[path[0]].child, path[1..])
  }

  /** The number of branches of the node at the end of the path. */
  function Branches(n: Node, path: seq<nat>): nat
    requires OnWay(n, path)
    decreases n
  {
    if |path| == 1 then |n.branches| else Branches(n.branches[path[0]].child, path[1..])
  }

  /** The items from the end of the path on. */
  ghost function ItemsFrom(n: Node, path: seq<nat>): seq<Pair>
    requires OnWay(n, path)
    decreases n
  {
    if |path| == 1 then ContentFrom(n.branches, n.queue, path[0])
    else ItemsFrom(n.branches[path[0]].child, path[1..]) + ContentFrom(n.branches, n.queue, path[0] + 1)
  }

  /** The items from the k-th of the leaf on. */
  ghost function ItemsAt(n: Node, path: seq<nat>, k: nat): seq<Pair>
    requires AtLeaf(n, path) && k <= |Leaves.Items(LeafAt(n, path))|
    decreases n
  {
    match n
    case Leaf(l) => Leaves.Items(l)[k..]
    case Internal(bs, q) => ItemsAt(bs[path[0]].child, path[1..], k) + ContentFrom(bs, q, path[0] + 1)
  }

  /** The next index in the last node of the path. */
  function Bump(path: seq<nat>): (r: seq<nat>)
    requires |path| > 0
    ensures |r| == |path|
  {
    path[|path| - 1 := Last(path) + 1]
  }

  lemma BumpTail(path: seq<nat>)
    requires |path| > 1
    ensures Bump(path)[0] == path[0] && Bump(path)[1..] == Bump(path[1..])
  {
  }

  // ---------------------------------------------------------------- inside a leaf

  /** One item further in the same leaf is one item less to read. */
  lemma {:induction false} NextInLeaf(n: Node, path: seq<nat>, k: nat)
    requires AtLeaf(n, path) && k < |Leaves.Items(LeafAt(n, path))|
    ensures ItemsAt(n, path, k) == [Leaves.Items(LeafAt(n, path))[k]] + ItemsAt(n, path, k + 1)
    decreases n
  {
    match n
    case Leaf(l) =>
    case Internal(bs, q) =>
      NextInLeaf(bs[path[0]].child, path[1..], k);
      Regroup([Leaves.Items(LeafAt(n, path))[k]], ItemsAt(bs[path[0]].child, path[1..], k + 1),
        ContentFrom(bs, q, path[0] + 1));
  }

  // ---------------------------------------------------------------- popping

  /** Behind the last item of a leaf the path goes on at the next index. */
  lemma {:induction false} PopLeaf(n: Node, path: seq<nat>)
    requires AtLeaf(n, path) && |path| > 0
    ensures OnWay(n, Bump(path))
    ensures ItemsFrom(n, Bump(path)) == ItemsAt(n, path, |Leaves.Items(LeafAt(n, path))|)
    decreases n
  {
    hide ApplyMany, ContentFrom, Leaves.Items, Range;
    var bs, q, c := n.branches, n.queue, n.branches[path[0]].child;
    var k := |Leaves.Items(LeafAt(n, path))|;
    if |path| == 1 {
      assert path[1..] == [];
      assert ItemsAt(c, path[1..], k) == [];
      assert ItemsAt(n, path, k) == [] + ContentFrom(bs, q, path[0] + 1) == ContentFrom(bs, q, path[0] + 1);
    } else {
      PopLeaf(c, path[1..]);
      BumpTail(path);
    }
  }

  lemma {:induction false} RootLeafDone(n: Node)
    requires AtLeaf(n, [])
    ensures ItemsAt(n, [], |Leaves.Items(LeafAt(n, []))|) == []
  {
  }

  /** A node without further branches is left for the next index of its parent. */
  lemma {:induction false} PopFrame(n: Node, path: seq<nat>)
    requires OnWay(n, path) && Last(path) >= Branches(n, path)
    ensures if |path| == 1 then ItemsFrom(n, path) == []
            else OnWay(n, Bump(path[..|path| - 1])) && ItemsFrom(n, Bump(path[..|path| - 1])) == ItemsFrom(n, path)
    decreases n
  {
    hide Range;
    if |path| > 1 {
      var c, i := n.branches[path[0]].child, path[0];
      PopFrame(c, path[1..]);
      var up := path[..|path| - 1];
      if |path| == 2 {
        assert up == [i] && Bump(up) == [i + 1];
        assert ItemsFrom(n, path) == [] + ContentFrom(n.branches, n.queue, i + 1);
      } else {
        assert up[1..] == path[1..][..|path[1..]| - 1];
        BumpTail(up);
      }
    }
  }

  // ---------------------------------------------------------------- going down

  /**
   * applyPendingEdits as the iterator calls it: the edits of child i are
   * pushed into it, but its item count is stored in branch 0.
   */
  function CursorPush(n: Node, i: nat, lo: Option<Key>, hi: Option<Key>): (r: Node)
    requires n.Internal? && i < |n.branches|
    ensures r.Internal? && |r.branches| == |n.branches|
  {
    var p := Push(n, i, lo, hi, false);
    var cs := n.branches[i := n.branches[i].(child := p.branches[i].child, loaded := true)];
    Internal(cs[0 := cs[0].(count := ItemCount(p.branches[i].child))], p.queue)
  }

  /** The push at the end of the path. */
  function PushAt(n: Node, path: seq<nat>, lo: Option<Key>, hi: Option<Key>): Node
    requires OnWay(n, path) && Last(path) < Branches(n, path)
    decreases n
  {
    var i := path[0];
    if |path| == 1 then CursorPush(n, i, lo, hi)
    else PutChild(n, i, PushAt(n.branches[i].child, path[1..], ForkLo(n.branches, i, lo), ForkHi(n.branches, i, hi)))
  }

  /** Apart from counts this is the usual push. */
  lemma CursorPushSame(n: Node, i: nat, lo: Option<Key>, hi: Option<Key>)
    requires n.Internal? && i < |n.branches|
    ensures SameBranches(Push(n, i, lo, hi, false).branches, CursorPush(n, i, lo, hi).branches)
    ensures CursorPush(n, i, lo, hi).queue == Push(n, i, lo, hi, false).queue
  {
    hide ApplyMany;
  }

  /** No leaf is empty once the edits pending for it are in. */
  ghost predicate Full(n: Node)
    decreases Height(n), 1
  {
    match n
    case Leaf(l) => |l.pairs| > 0
    case Internal(bs, q) => forall i :: 0 <= i < |bs| ==> FullAt(bs, q, i)
  }

  ghost predicate FullAt(bs: seq<Branch>, q: seq<Edit>, i: nat)
    requires i < |bs|
    decreases 1 + MaxHeight(bs), 0
  {
    SettledHeight(bs, q, i);
    Full(Settled(bs, q, i))
  }

  /** What iteration keeps of the tree. */
  ghost predicate Iterable(n: Node, lo: Option<Key>, hi: Option<Key>) {
    Ordered(n, lo, hi) && Parsed(n) && Full(n)
  }

  lemma FullSame(bs: seq<Branch>, q: seq<Edit>, cs: seq<Branch>, r: seq<Edit>)
    requires |bs| == |cs| && Full(Internal(bs, q))
    requires forall j :: 0 <= j < |bs| ==> Settled(cs, r, j) == Settled(bs, q, j)
    ensures Full(Internal(cs, r))
  {
    forall j | 0 <= j < |cs|
      ensures FullAt(cs, r, j)
    {
      assert FullAt(bs, q, j);
    }
  }

  /** One step down: the child is settled, and every branch reads as before. */
  lemma CursorPushKeeps(n: Node, i: nat, lo: Option<Key>, hi: Option<Key>)
    requires n.Internal? && Iterable(n, lo, hi) && i < |n.branches|
    ensures var r := CursorPush(n, i, lo, hi);
            && Iterable(r, lo, hi) && Content(r) == Content(n)
            && Range(r.branches, r.queue, i) == [] && Full(r.branches[i].child)
            && r.branches[i].child == Settled(n.branches, n.queue, i) && r.branches[i].loaded
            && forall j :: 0 <= j <= |n.branches| ==>
              ContentFrom(r.branches, r.queue, j) == ContentFrom(n.branches, n.queue, j)
  {
    hide Full, Content, ContentFrom, Push, CursorPush, Ordered, Parsed, SameBranches;
    var p, r := Push(n, i, lo, hi, false), CursorPush(n, i, lo, hi);
    CursorPushSame(n, i, lo, hi);
    PushedChild(n, i, lo, hi, false);
    SameOrdered(p, r, lo, hi);
    PushedRange(n, i, lo, hi);
    PushContent(n, i, lo, hi);
    SameContent(p, r);
    SameSettled(p, r, i);
    forall j | 0 <= j <= |n.branches|
      ensures ContentFrom(r.branches, r.queue, j) == ContentFrom(n.branches, n.queue, j)
    {
      PushFrom(n, i, lo, hi, j);
    }
    forall j | 0 <= j < |n.branches|
      ensures Settled(r.branches, r.queue, j) == Settled(n.branches, n.queue, j)
    {
      SameSettled(p, r, j);
      PushSettled(n, i, lo, hi, j);
    }
    FullSame(n.branches, n.queue, r.branches, r.queue);
    SameChildren(p, r, i);
    FullPart(n, i);
    CursorPushLoads(n, i, lo, hi);
  }

  lemma CursorPushLoads(n: Node, i: nat, lo: Option<Key>, hi: Option<Key>)
    requires n.Internal? && i < |n.branches|
    ensures CursorPush(n, i, lo, hi).branches[i].loaded
  {
    hide Push;
  }

  lemma SameChildren(p: Node, r: Node, i: nat)
    requires p.Internal? && r.Internal? && SameBranches(p.branches, r.branches) && i < |p.branches|
    ensures p.branches[i].child == r.branches[i].child
  {
  }

  lemma FullPart(n: Node, i: nat)
    requires n.Internal? && Full(n) && i < |n.branches|
    ensures Full(Settled(n.branches, n.queue, i))
  {
    assert FullAt(n.branches, n.queue, i);
  }

  /** A settled child replaced by one that reads the same. */
  lemma PutKeeps(n: Node, i: nat, c: Node, lo: Option<Key>, hi: Option<Key>)
    requires n.Internal? && Iterable(n, lo, hi) && i < |n.branches| && Range(n.branches, n.queue, i) == []
    requires Iterable(c, Lo(n.branches, i, lo), Hi(n.branches, i, hi)) && Content(c) == Content(n.branches[i].child)
    ensures var r := PutChild(n, i, c);
            && Iterable(r, lo, hi) && Content(r) == Content(n) && Range(r.branches, r.queue, i) == []
            && ContentFrom(r.branches, r.queue, i + 1) == ContentFrom(n.branches, n.queue, i + 1)
  {
    hide Full, Ordered, Parsed, Content, ContentFrom;
    var bs, q, r := n.branches, n.queue, PutChild(n, i, c);
    PutChildOrdered(n, i, c, lo, hi);
    PutChildParsed(n, i, c);
    PutChildContent(n, i, c);
    forall j | 0 <= j < |bs|
      ensures Range(r.branches, q, j) == Range(bs, q, j)
    {
      RangeSame(bs, r.branches, q, j);
    }
    PutFull(n, i, c);
    ContentFromPut(n, i, c);
  }

  lemma PutFull(n: Node, i: nat, c: Node)
    requires n.Internal? && Full(n) && Full(c) && i < |n.branches|
    requires Range(n.branches, n.queue, i) == []
    requires forall j :: 0 <= j < |n.branches| ==>
               Range(PutChild(n, i, c).branches, n.queue, j) == Range(n.branches, n.queue, j)
    ensures Full(PutChild(n, i, c))
  {
    hide Range;
    var bs, q, r := n.branches, n.queue, PutChild(n, i, c);
    forall j | 0 <= j < |bs|
      ensures FullAt(r.branches, q, j)
    {
      assert FullAt(bs, q, j);
      if j == i {
        assert Settled(r.branches, q, i) == c;
      } else {
        assert Settled(r.branches, q, j) == Settled(bs, q, j);
      }
    }
  }

  lemma ContentFromPut(n: Node, i: nat, c: Node)
    requires n.Internal? && i < |n.branches|
    requires Range(n.branches, n.queue, i) == [] && Content(c) == Content(n.branches[i].child)
    ensures var r := PutChild(n, i, c);
            ContentFrom(r.branches, r.queue, i + 1) == ContentFrom(n.branches, n.queue, i + 1)
  {
    hide Content;
    var bs, q, cs := n.branches, n.queue, PutChild(n, i, c).branches;
    forall j | 0 <= j < |bs|
      ensures Content(Settled(bs, q, j)) == Content(Settled(cs, q, j))
    {
      RangeSame(bs, cs, q, j);
    }
    ContentFromSame(bs, q, cs, q, i + 1);
  }

  /** What the step down leaves to be read, where it arrives. */
  ghost predicate Arrives(n: Node, path: seq<nat>, r: Node) {
    && OnWay(n, path)
    && (AtLeaf(r, path) || OnWay(r, path + [0]))
    && (AtLeaf(r, path) ==> |LeafAt(r, path).pairs| > 0 && ItemsAt(r, path, 0) == ItemsFrom(n, path))
    && (OnWay(r, path + [0]) ==> ItemsFrom(r, path + [0]) == ItemsFrom(n, path))
  }

  lemma ArrivesHere(n: Node, i: nat, lo: Option<Key>, hi: Option<Key>)
    requires n.Internal? && Iterable(n, lo, hi) && i < |n.branches|
    ensures Arrives(n, [i], CursorPush(n, i, lo, hi))
  {
    hide Full, Content, ContentFrom, CursorPush, Ordered, Parsed, Range;
    var r := CursorPush(n, i, lo, hi);
    CursorPushKeeps(n, i, lo, hi);
    var c := r.branches[i].child;
    ContentFromStep(n.branches, n.queue, i);
    assert [i][1..] == [] && ([i] + [0])[1..] == [0];
    ContentStart(c);
    assert ItemsFrom(n, [i]) == Content(c) + ContentFrom(r.branches, r.queue, i + 1);
    if c.Leaf? {
      FullLeaf(c);
      assert AtLeaf(c, []) && AtLeaf(r, [i]) && LeafAt(r, [i]) == c.leaf;
      assert !OnWay(c, [0]) && !OnWay(r, [i] + [0]);
      assert Leaves.Items(c.leaf)[0..] == Leaves.Items(c.leaf);
      assert ItemsAt(r, [i], 0) == ItemsAt(c, [], 0) + ContentFrom(r.branches, r.queue, i + 1);
    } else {
      assert OnWay(c, [0]) && OnWay(r, [i] + [0]);
      assert !AtLeaf(c, []) && !AtLeaf(r, [i]);
      assert ItemsFrom(r, [i] + [0]) == ItemsFrom(c, [0]) + ContentFrom(r.branches, r.queue, i + 1);
    }
  }

  lemma FullLeaf(n: Node)
    requires n.Leaf? && Full(n)
    ensures |n.leaf.pairs| > 0
  {
  }

  lemma ContentStart(c: Node)
    ensures Content(c) == match c case Leaf(l) => Leaves.Items(l) case Internal(bs, q) => ContentFrom(bs, q, 0)
  {
  }

  /** Going down keeps the tree and what remains to be read. */
  lemma {:induction false} DownKeeps(n: Node, path: seq<nat>, lo: Option<Key>, hi: Option<Key>)
    requires Iterable(n, lo, hi) && OnWay(n, path) && Last(path) < Branches(n, path)
    ensures var r := PushAt(n, path, lo, hi);
            Iterable(r, lo, hi) && Content(r) == Content(n) && Arrives(n, path, r)
    decreases n
  {
    hide Full, Content, ContentFrom, CursorPush, Ordered, Parsed, Range, Arrives;
    var i := path[0];
    if |path| == 1 {
      assert path == [i];
      CursorPushKeeps(n, i, lo, hi);
      ArrivesHere(n, i, lo, hi);
    } else {
      var c := n.branches[i].child;
      var flo, fhi := ForkLo(n.branches, i, lo), ForkHi(n.branches, i, hi);
      ChildIterable(n, i, lo, hi);
      DownKeeps(c, path[1..], flo, fhi);
      PutKeeps(n, i, PushAt(c, path[1..], flo, fhi), lo, hi);
      ArrivesBelow(n, path, PushAt(c, path[1..], flo, fhi));
    }
  }

  lemma ChildIterable(n: Node, i: nat, lo: Option<Key>, hi: Option<Key>)
    requires n.Internal? && Iterable(n, lo, hi) && i < |n.branches| && Range(n.branches, n.queue, i) == []
    ensures ForkLo(n.branches, i, lo) == Lo(n.branches, i, lo) && ForkHi(n.branches, i, hi) == Hi(n.branches, i, hi)
    ensures Iterable(n.branches[i].child, Lo(n.branches, i, lo), Hi(n.branches, i, hi))
  {
    PendIsRange(n, i, lo, hi);
    FullPart(n, i);
    assert Settled(n.branches, n.queue, i) == n.branches[i].child;
  }

  /** A path through branch i, seen from the node and from the child. */
  lemma ThroughBranch(n: Node, path: seq<nat>)
    requires n.Internal? && |path| > 1 && path[0] < |n.branches|
    requires n.branches[path[0]].loaded && Range(n.branches, n.queue, path[0]) == []
    ensures var c := n.branches[path[0]].child;
            && (OnWay(n, path) <==> OnWay(c, path[1..])) && (AtLeaf(n, path) <==> AtLeaf(c, path[1..]))
            && (OnWay(c, path[1..]) ==>
                  ItemsFrom(n, path) == ItemsFrom(c, path[1..]) + ContentFrom(n.branches, n.queue, path[0] + 1))
            && (AtLeaf(c, path[1..]) ==>
                  && LeafAt(n, path) == LeafAt(c, path[1..])
                  && ItemsAt(n, path, 0) == ItemsAt(c, path[1..], 0) + ContentFrom(n.branches, n.queue, path[0] + 1))
  {
    hide ContentFrom, Range;
  }

  lemma ArrivesBelow(n: Node, path: seq<nat>, d: Node)
    requires OnWay(n, path) && |path| > 1 && Arrives(n.branches[path[0]].child, path[1..], d)
    requires var r := PutChild(n, path[0], d);
             && Range(r.branches, r.queue, path[0]) == []
             && ContentFrom(r.branches, r.queue, path[0] + 1) == ContentFrom(n.branches, n.queue, path[0] + 1)
    ensures Arrives(n, path, PutChild(n, path[0], d))
  {
    hide ContentFrom, Range, ItemsFrom, ItemsAt, AtLeaf, LeafAt;
    var r, to := PutChild(n, path[0], d), path + [0];
    assert to[1..] == path[1..] + [0];
    ThroughBranch(n, path);
    ThroughBranch(r, path);
    ThroughBranch(r, to);
  }

  // ---------------------------------------------------------------- the loop ends

  /** The steps it may take to walk all of a tree. */
  function Weight(n: Node): nat
    decreases n, 0
  {
    match n
    case Leaf(_) => 1
    case Internal(bs, _) => 2 + Weights(bs)
  }

  function Weights(bs: seq<Branch>): nat
    decreases bs, 1
  {
    if |bs| == 0 then 0
    else
      var b := bs[0];
      assert b in bs && b.child < b;
      Weight(b.child) + Weights(bs[1..])
  }

  /** The steps left from the end of a path. */
  function StepsLeft(n: Node, path: seq<nat>): nat
    requires OnWay(n, path)
    decreases n
  {
    if |path| == 1 then 1 + Weights(n.branches[path[0]..])
    else StepsLeft(n.branches[path[0]].child, path[1..]) + 1 + Weights(n.branches[path[0] + 1..])
  }

  lemma WeightsAt(bs: seq<Branch>, i: nat)
    requires i < |bs|
    ensures Weights(bs[i..]) == Weight(bs[i].child) + Weights(bs[i + 1..])
  {
    assert bs[i..][1..] == bs[i + 1..];
  }

  lemma {:induction false} WeightsSame(bs: seq<Branch>, cs: seq<Branch>)
    requires |bs| == |cs| && forall j :: 0 <= j < |bs| ==> Weight(bs[j].child) == Weight(cs[j].child)
    ensures Weights(bs) == Weights(cs)
  {
    if |bs| > 0 {
      WeightsSame(bs[1..], cs[1..]);
    }
  }

  lemma {:induction false} ApplyWeight(n: Node, e: Edit)
    ensures Weight(Apply(n, e, false)) == Weight(n)
  {
  }

  lemma {:induction false} ManyWeight(n: Node, es: seq<Edit>)
    ensures Weight(ApplyMany(n, es, false)) == Weight(n)
    decreases |es|
  {
    if |es| > 0 {
      ApplyWeight(n, es[0]);
      ManyWeight(Apply(n, es[0], false), es[1..]);
    }
  }

  lemma PushWeight(n: Node, i: nat, lo: Option<Key>, hi: Option<Key>, j: nat)
    requires n.Internal? && i < |n.branches| && j < |n.branches|
    ensures Weight(CursorPush(n, i, lo, hi).branches[j].child) == Weight(n.branches[j].child)
  {
    hide ApplyMany, Weight;
    var q := n.queue;
    ManyWeight(n.branches[i].child,
      Between(q, PendFrom(q, ForkLo(n.branches, i, lo)), PendTo(q, ForkHi(n.branches, i, hi))));
  }

  lemma TailWeights(n: Node, r: Node, i: nat)
    requires n.Internal? && r.Internal? && |n.branches| == |r.branches| && i <= |n.branches|
    requires forall j :: i <= j < |n.branches| ==> Weight(n.branches[j].child) == Weight(r.branches[j].child)
    ensures Weights(n.branches[i..]) == Weights(r.branches[i..])
  {
    hide Weight;
    WeightsSame(n.branches[i..], r.branches[i..]);
  }

  /** A step down to an internal node uses up a step. */
  lemma {:induction false} DownSteps(n: Node, path: seq<nat>, lo: Option<Key>, hi: Option<Key>)
    requires OnWay(n, path) && Last(path) < Branches(n, path)
    requires OnWay(PushAt(n, path, lo, hi), path + [0])
    ensures StepsLeft(PushAt(n, path, lo, hi), path + [0]) < StepsLeft(n, path)
    decreases n
  {
    hide Range, CursorPush, Weights;
    var i, r := path[0], PushAt(n, path, lo, hi);
    var to := path + [0];
    assert to[0] == i;
    if |path| == 1 {
      assert to[1..] == [0];
      forall j | 0 <= j < |n.branches|
        ensures Weight(n.branches[j].child) == Weight(r.branches[j].child)
      {
        PushWeight(n, i, lo, hi, j);
      }
      WeightsAt(n.branches, i);
      TailWeights(n, r, i + 1);
      var c := r.branches[i].child;
      assert c.branches[0..] == c.branches;
    } else {
      assert to[1..] == path[1..] + [0];
      DownSteps(n.branches[i].child, path[1..], ForkLo(n.branches, i, lo), ForkHi(n.branches, i, hi));
      TailWeights(n, r, i + 1);
    }
  }

  /** And so does leaving a node. */
  lemma {:induction false} PopSteps(n: Node, path: seq<nat>)
    requires OnWay(n, path) && |path| > 1 && Last(path) >= Branches(n, path)
    requires OnWay(n, Bump(path[..|path| - 1]))
    ensures StepsLeft(n, Bump(path[..|path| - 1])) < StepsLeft(n, path)
    decreases n
  {
    hide Range;
    var up := path[..|path| - 1];
    if |path| == 2 {
      assert Bump(up) == [path[0] + 1];
    } else {
      assert up[1..] == path[1..][..|path[1..]| - 1];
      BumpTail(up);
      PopSteps(n.branches[path[0]].child, path[1..]);
    }
  }

  // ---------------------------------------------------------------- counts

  lemma {:induction false} ManyCounted(n: Node, es: seq<Edit>)
    requires Counted(n)
    ensures Counted(ApplyMany(n, es, false))
    decreases |es|
  {
    if |es| > 0 {
      ManyCounted(Apply(n, es[0], false), es[1..]);
    }
  }

  /**
   * Since the iterator stores the count of the child it enters in branch 0,
   * the counts of the node stay right exactly when that child is the first, or
   * the edits waiting for it change nothing and it counts as much as the first.
   */
  lemma CursorCounts(n: Node, i: nat, lo: Option<Key>, hi: Option<Key>)
    requires n.Internal? && i < |n.branches| && Counted(n)
    ensures Counted(CursorPush(n, i, lo, hi)) <==>
              || i == 0
              || (CountChange(n.branches[i].child, PendingFor(n, i, lo, hi)) == 0 &&
                n.branches[i].count == n.branches[0].count)
  {
    var bs, q, r := n.branches, n.queue, CursorPush(n, i, lo, hi);
    var es := Between(q, PendFrom(q, ForkLo(bs, i, lo)), PendTo(q, ForkHi(bs, i, hi)));
    var c := ApplyMany(bs[i].child, es, false);
    ManyCounted(bs[i].child, es);
    ManyCountChange(bs[i].child, es);
    CursorIs(n, i, lo, hi);
    EachCounted(n, r, i, c);
  }

  /** An empty leaf beside one with a pair: the counts are right until the cursor enters the second. */
  lemma CursorMiscounts(k: Key, v: Value)
    ensures var l, r := Leaf(Leaves.LeafData([], Overflow.End)), Leaf(Leaves.LeafData([Pair(k, v)], Overflow.End));
            var n := Internal([Branch(None, 0, 0, true, l), Branch(Some(k), 1, 1, true, r)], []);
            Ordered(n, None, None) && Counted(n) && !Counted(CursorPush(n, 1, None, None))
  {
    hide CursorPush;
    var l, r := Leaf(Leaves.LeafData([], Overflow.End)), Leaf(Leaves.LeafData([Pair(k, v)], Overflow.End));
    var n := Internal([Branch(None, 0, 0, true, l), Branch(Some(k), 1, 1, true, r)], []);
    assert ItemCount(l) == 0 && ItemCount(r) == 1;
    CursorCounts(n, 1, None, None);
  }

  lemma CursorIs(n: Node, i: nat, lo: Option<Key>, hi: Option<Key>)
    requires n.Internal? && i < |n.branches|
    ensures var r := CursorPush(n, i, lo, hi); var c := Push(n, i, lo, hi, false).branches[i].child;
            forall j :: 0 <= j < |n.branches| ==>
              && r.branches[j].child == (if j == i then c else n.branches[j].child)
              && r.branches[j].count == (if j == 0 then ItemCount(c) else n.branches[j].count)
  {
    hide ApplyMany;
  }

  lemma EachCounted(n: Node, r: Node, i: nat, c: Node)
    requires n.Internal? && r.Internal? && |n.branches| == |r.branches| && i < |n.branches| && Counted(n) && Counted(c)
    requires forall j :: 0 <= j < |n.branches| ==>
               && r.branches[j].child == (if j == i then c else n.branches[j].child)
               && r.branches[j].count == (if j == 0 then ItemCount(c) else n.branches[j].count)
    ensures Counted(r) <==> i == 0 || (ItemCount(c) == n.branches[i].count && ItemCount(c) == n.branches[0].count)
  {
    hide ItemCount;
    if Counted(r) && i > 0 {
      assert r.branches[i].count == ItemCount(r.branches[i].child);
      assert r.branches[0].count == ItemCount(r.branches[0].child);
      assert n.branches[0].count == ItemCount(n.branches[0].child);
    }
  }

  // ---------------------------------------------------------------- the first leaf

  function FirstPath(n: Node): seq<nat>
    decreases n
  {
    if n.Leaf? || |n.branches| == 0 then [] else [0] + FirstPath(n.branches[0].child)
  }

  /** begin(): the first leaf, with everything still to be read. */
  lemma {:induction false} FirstStands(n: Node, lo: Option<Key>, hi: Option<Key>)
    requires Iterable(n, lo, hi)
    ensures var t := Find(n, None, lo, hi);
            && Iterable(t, lo, hi) && Content(t) == Content(n)
            && AtLeaf(t, FirstPath(t)) && |LeafAt(t, FirstPath(t)).pairs| > 0
            && ItemsAt(t, FirstPath(t), 0) == Content(t)
    decreases Height(n)
  {
    hide Full, Ordered, Parsed, Content, ContentFrom, Push, Range;
    match n
    case Leaf(l) =>
      ContentStart(n);
      FullLeaf(n);
      assert Leaves.Items(l)[0..] == Leaves.Items(l);
    case Internal(bs, q) =>
      OrderedParts(n, lo, hi);
      var p := Push(n, 0, lo, hi, false);
      PushedChild(n, 0, lo, hi, false);
      PushKeeps(n, 0, lo, hi);
      var flo, fhi := ForkLo(bs, 0, lo), ForkHi(bs, 0, hi);
      var c := p.branches[0].child;
      FirstStands(c, flo, fhi);
      var d := Find(c, None, flo, fhi);
      PutKeeps(p, 0, d, lo, hi);
      FirstBelow(p, d);
  }

  lemma PushKeeps(n: Node, i: nat, lo: Option<Key>, hi: Option<Key>)
    requires n.Internal? && Iterable(n, lo, hi) && i < |n.branches|
    ensures var p := Push(n, i, lo, hi, false);
            && Iterable(p, lo, hi) && Content(p) == Content(n) && Range(p.branches, p.queue, i) == []
            && p.branches[i].loaded && Full(p.branches[i].child)
            && ForkLo(n.branches, i, lo) == Lo(p.branches, i, lo) && ForkHi(n.branches, i, hi) == Hi(p.branches, i, hi)
  {
    hide Full, Content, ApplyMany;
    var p := Push(n, i, lo, hi, false);
    PushedChild(n, i, lo, hi, false);
    PushedRange(n, i, lo, hi);
    PushContent(n, i, lo, hi);
    PendIsRange(n, i, lo, hi);
    forall j | 0 <= j < |n.branches|
      ensures Settled(p.branches, p.queue, j) == Settled(n.branches, n.queue, j)
    {
      PushSettled(n, i, lo, hi, j);
    }
    FullSame(n.branches, n.queue, p.branches, p.queue);
    FullPart(n, i);
  }

  lemma FirstBelow(p: Node, d: Node)
    requires p.Internal? && |p.branches| > 0 && p.branches[0].loaded
    requires AtLeaf(d, FirstPath(d)) && |LeafAt(d, FirstPath(d)).pairs| > 0 && ItemsAt(d, FirstPath(d), 0) == Content(d)
    requires var t := PutChild(p, 0, d);
             Range(t.branches, t.queue, 0) == []
    ensures var t := PutChild(p, 0, d);
            AtLeaf(t, FirstPath(t)) && |LeafAt(t, FirstPath(t)).pairs| > 0 && ItemsAt(t, FirstPath(t), 0) == Content(t)
  {
    hide Range, Content, ContentFrom;
    var t := PutChild(p, 0, d);
    assert FirstPath(t) == [0] + FirstPath(d);
    assert FirstPath(t)[1..] == FirstPath(d);
    ContentStart(t);
    ContentFromStep(t.branches, t.queue, 0);
    assert Settled(t.branches, t.queue, 0) == d;
  }
}
