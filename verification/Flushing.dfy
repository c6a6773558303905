/**
 * write(), up to the new root: push oversized queues down, flush and split the
 * loaded children, drop emptied branches, and grow new roots.
 */
module Flushing {
  import opened Types
  import opened Multimap
  import opened Tree
  import opened Meaning
  import opened Lookup
  import opened Contents
  import opened Counting
  import opened BranchLists
  import opened Splitting
  import opened Merging
  import opened Swapping
  import ChainMerging
  import Limits
  import Leaves
  import Overflow

  // ---------------------------------------------------------------- applying a queue

  /** applyAll looks at no overflow chain: what is asked of the edits where there is one. */
  predicate MergeOK(l: Leaves.Valid, es: seq<Edit>) {
    l.chain.Node? ==> ChainMerging.Fitting(l, es)
  }

  /** No edit is at or behind the key of the chain. */
  predicate BelowChain(l: Leaves.Valid, es: seq<Edit>) {
    l.chain.Node? ==> forall i :: 0 <= i < |es| ==> es[i].key < Last(l.pairs).key
  }

  /** applyAll leaves a pair in front of the chain. */
  predicate MergeRuns(l: Leaves.Valid, es: seq<Edit>) {
    IsSortedEdits(es) && (l.chain.Node? ==> Merge(l.pairs, es) != [])
  }

  lemma BelowFits(l: Leaves.Valid, es: seq<Edit>)
    requires SortedEdits(es) && BelowChain(l, es)
    ensures MergeOK(l, es)
  {
    if l.chain.Node? {
      ChainMerging.BelowFits(l, es);
    }
  }

  lemma MergeValid(l: Leaves.Valid, es: seq<Edit>)
    requires SortedEdits(es) && (l.chain.Node? ==> Merge(l.pairs, es) != [])
    ensures Leaves.Inv(Limits.Raw(l, es))
  {
    MergeRefines(l.pairs, es, 0);
  }

  lemma FitsRuns(l: Leaves.Valid, es: seq<Edit>)
    requires SortedEdits(es) && MergeOK(l, es)
    ensures MergeRuns(l, es)
  {
    hide Merge, ChainMerging.Fitting;
    if l.chain.Node? {
      ChainMerging.ListExact(l, es);
    }
  }

  /** The leaf after applyAll; a chain that has lost all its pairs would not be a leaf any more. */
  function MergeLeaf(l: Leaves.Valid, es: seq<Edit>): Leaves.Valid {
    if MergeRuns(l, es) then
      MergeValid(l, es);
      Limits.Raw(l, es)
    else l
  }

  predicate IsSortedEdits(q: seq<Edit>) {
    forall i, j :: 0 <= i < j < |q| ==> q[i].key <= q[j].key
  }

  /** Edits for an internal child: the guaranteed ones are queued there, the others go to the leaves. */
  function MixMany(n: Node, es: seq<Edit>): Node
    decreases |es|
  {
    if |es| == 0 then n else MixMany(Apply(n, es[0], !es[0].guaranteed), es[1..])
  }

  /** applyEditsToBranch. */
  function ApplyEdits(n: Node, es: seq<Edit>): Node {
    if |es| == 0 then n
    else match n
      case Leaf(l) => Leaf(MergeLeaf(l, es))
      case Internal(_, _) => MixMany(n, es)
  }

  function ApplyBranch(bs: seq<Branch>, q: seq<Edit>, i: nat): Branch
    requires i < |bs|
  {
    var es := Range(bs, q, i);
    bs[i].(child := ApplyEdits(bs[i].child, es), loaded := bs[i].loaded || |es| > 0)
  }

  function ApplyBranches(bs: seq<Branch>, q: seq<Edit>): (r: seq<Branch>)
    ensures |r| == |bs|
    ensures forall i :: 0 <= i < |bs| ==> r[i] == ApplyBranch(bs, q, i)
  {
    seq(|bs|, i requires 0 <= i < |bs| => ApplyBranch(bs, q, i))
  }

  /** maybeApplyEdits: empties a queue that is larger than its area. */
  function MaybeApply(cfg: Config, bs: seq<Branch>, q: seq<Edit>): (seq<Branch>, seq<Edit>) {
    if QueueSize(cfg, q) > cfg.queue then (ApplyBranches(bs, q), []) else (bs, q)
  }

  // ---------------------------------------------------------------- flushing

  lemma {:induction false} MixHeight(n: Node, es: seq<Edit>)
    ensures Height(MixMany(n, es)) == Height(n)
    decreases |es|
  {
    if |es| > 0 {
      ApplyHeight(n, es[0], !es[0].guaranteed);
      MixHeight(Apply(n, es[0], !es[0].guaranteed), es[1..]);
    }
  }

  lemma AppliedHeight(bs: seq<Branch>, q: seq<Edit>, i: nat)
    requires i < |bs|
    ensures Height(ApplyBranch(bs, q, i).child) == Height(bs[i].child)
  {
    if bs[i].child.Internal? {
      MixHeight(bs[i].child, Range(bs, q, i));
    }
  }

  lemma MaybeHeight(cfg: Config, bs: seq<Branch>, q: seq<Edit>)
    ensures MaxHeight(MaybeApply(cfg, bs, q).0) == MaxHeight(bs)
  {
    var cs := MaybeApply(cfg, bs, q).0;
    forall i | 0 <= i < |bs|
      ensures Height(bs[i].child) == Height(cs[i].child)
    {
      AppliedHeight(bs, q, i);
    }
    MaxHeightIs(bs, cs);
  }

  /** The leaf's own chain is pushed down first, if it is in memory. */
  function PushedLeaf(cfg: Config, l: Leaves.Valid): Leaves.Valid {
    if l.chain.Node? && l.chain.loaded then
      PushDownKeeps(cfg.block, l.chain);
      Leaves.LeafData(l.pairs, PushDown(cfg.block, l.chain))
    else l
  }

  /** updateBranch: the flushed child takes the branch's place, or the branch goes if nothing is left in it. */
  function Update(b: Branch, split: seq<Branch>): seq<Branch>
    requires |split| > 0
  {
    if |split| == 1 && split[0].count == 0 then []
    else [b.(child := split[0].child, count := split[0].count)] + split[1..]
  }

  /** flushAndSplitRec: the branches that replace a loaded node. */
  function Flush(cfg: Config, n: Node): (r: seq<Branch>)
    ensures |r| > 0
    decreases Height(n), 1, 0
  {
    match n
    case Leaf(l) => SplitLeaf(cfg, PushedLeaf(cfg, l))
    case Internal(bs, q) =>
      var (cs, p) := MaybeApply(cfg, bs, q);
      MaybeHeight(cfg, bs, q);
      SplitInternal(cfg, FlushFrom(cfg, cs, 0), p)
  }

  function FlushFrom(cfg: Config, bs: seq<Branch>, i: nat): seq<Branch>
    requires i <= |bs|
    decreases 1 + MaxHeight(bs), 0, |bs| - i
  {
    if i == |bs| then []
    else
      MaxHeightBounds(bs, i);
      (if bs[i].loaded then Update(bs[i], Flush(cfg, bs[i].child)) else [bs[i]]) + FlushFrom(cfg, bs, i + 1)
  }

  // ---------------------------------------------------------------- meaning relations

  /** Whatever m stands for on the keys of [lo, hi), n stood for. */
  ghost predicate Refines(m: Node, n: Node, lo: Option<Key>, hi: Option<Key>) {
    forall k, c :: Within(lo, hi, k) && Denotes(m, k, c) ==> Denotes(n, k, c)
  }

  /** n stands for nothing on the keys of [lo, hi). */
  ghost predicate Hollow(n: Node, lo: Option<Key>, hi: Option<Key>) {
    forall k, c :: Within(lo, hi, k) && Denotes(n, k, c) ==> c == multiset{}
  }

  lemma WithinBounds(bs: seq<Branch>, lo: Option<Key>, hi: Option<Key>, i: nat, k: Key)
    requires Separators(bs, lo, hi) && i < |bs| && Within(Lo(bs, i, lo), Hi(bs, i, hi), k)
    ensures Within(lo, hi, k)
  {
  }

  /** Outside its range an ordered tree holds nothing and has nothing pending. */
  lemma {:induction false} OutsideMeans(n: Node, lo: Option<Key>, hi: Option<Key>, k: Key)
    requires Ordered(n, lo, hi) && !Within(lo, hi, k)
    ensures Pending(n, k) == [] && Held(n, k) == multiset{}
    decreases n
  {
    match n
    case Leaf(l) => BagEmpty(l.pairs, k);
    case Internal(bs, q) =>
      var r := Route(bs, k);
      EditsOnNone(q, k);
      if Within(Lo(bs, r, lo), Hi(bs, r, hi), k) {
        WithinBounds(bs, lo, hi, r, k);
      }
      OutsideMeans(bs[r].child, Lo(bs, r, lo), Hi(bs, r, hi), k);
  }

  // ---------------------------------------------------------------- applying keeps the meaning

  /**
   * In a batch for a node with these edits of the key waiting in it or below,
   * no edit goes deep before one of its key that it may not be swapped with.
   */
  predicate MixOK(waiting: seq<Edit>, es: seq<Edit>)
    decreases |es|
  {
    |es| > 0 ==>
      if es[0].guaranteed then MixOK(waiting + [es[0]], es[1..])
      else AllHarmless(waiting, es[0]) && MixOK(waiting, es[1..])
  }

  lemma SetChildMeans(n: Node, i: nat, c: Node, k: Key)
    requires n.Internal? && i < |n.branches|
    ensures var r := Internal(SetChild(n.branches, i, c), n.queue); var j := Route(n.branches, k);
            && Pending(r, k) == Pending(if j == i then c else n.branches[j].child, k) + EditsOn(n.queue, k)
            && Held(r, k) == Held(if j == i then c else n.branches[j].child, k)
  {
    RouteSame(n.branches, SetChild(n.branches, i, c), k);
  }

  /** A deep edit changes the held values of its key by one step, and what is pending nowhere. */
  lemma {:induction false} DeepMeans(n: Node, e: Edit, k: Key, lo: Option<Key>, hi: Option<Key>)
    requires Ordered(n, lo, hi)
    ensures Pending(Apply(n, e, true), k) == Pending(n, k)
    ensures StepsOn(e, Held(n, k), Held(Apply(n, e, true), k), k)
    decreases n
  {
    match n
    case Leaf(l) => Leaves.ApplyStep(l, e, k);
    case Internal(bs, q) =>
      var i := Route(bs, e.key);
      SetChildMeans(n, i, Apply(bs[i].child, e, true), k);
      DeepMeans(bs[i].child, e, k, Lo(bs, i, lo), Hi(bs, i, hi));
  }

  lemma {:induction false} MixOrdered(n: Node, es: seq<Edit>, lo: Option<Key>, hi: Option<Key>)
    requires Ordered(n, lo, hi) && EditsWithin(es, lo, hi)
    ensures Ordered(MixMany(n, es), lo, hi)
    decreases |es|
  {
    if |es| > 0 {
      ApplyOrdered(n, es[0], !es[0].guaranteed, lo, hi);
      MixOrdered(Apply(n, es[0], !es[0].guaranteed), es[1..], lo, hi);
    }
  }

  /**
   * A deep edit in a tree of any height is one step of the reference if every
   * edit of its key still queued on the way may be swapped with it.
   */
  lemma DeepStep(n: Node, e: Edit, k: Key, lo: Option<Key>, hi: Option<Key>, c: Values) returns (m: Values)
    requires Ordered(n, lo, hi) && Denotes(Apply(n, e, true), k, c)
    requires AllHarmless(Pending(n, e.key), e)
    ensures Denotes(n, k, m) && Steps(If(e, k), m, c)
  {
    hide Step, Pending, Held, Ordered;
    DeepMeans(n, e, k, lo, hi);
    if k == e.key {
      OvertakeAll(Pending(n, k), e, Held(n, k), Held(Apply(n, e, true), k), c);
      m := StepsSplit(Pending(n, k), [e], Held(n, k), c);
    } else {
      m := c;
    }
  }

  /** One edit of a mixed batch. */
  lemma MixTurn(n: Node, e: Edit, k: Key, lo: Option<Key>, hi: Option<Key>, c: Values) returns (m: Values)
    requires n.Internal? && Ordered(n, lo, hi)
    requires k == e.key && !e.guaranteed ==> AllHarmless(Pending(n, k), e)
    requires Denotes(Apply(n, e, !e.guaranteed), k, c)
    ensures Denotes(n, k, m) && Steps(If(e, k), m, c)
    ensures Pending(Apply(n, e, !e.guaranteed), k) == Pending(n, k) + (if e.guaranteed then If(e, k) else [])
  {
    hide Ordered, Held, Pending, Step;
    if e.guaranteed {
      OrderedSorted(n, lo, hi);
      ShallowPends(n, e, k);
      m := ShallowStep(n, e, k, c);
    } else {
      DeepMeans(n, e, k, lo, hi);
      assert Pending(n, k) == Pending(n, k) + [];
      if k == e.key {
        m := DeepStep(n, e, k, lo, hi, c);
      } else {
        m := c;
      }
    }
  }

  /** A mixed batch takes every key's edits in order. */
  lemma {:induction false} MixStep(n: Node, es: seq<Edit>, k: Key, lo: Option<Key>, hi: Option<Key>, c: Values)
    returns (m: Values)
    requires n.Internal? && Ordered(n, lo, hi) && EditsWithin(es, lo, hi)
    requires MixOK(Pending(n, k), EditsOn(es, k))
    requires Denotes(MixMany(n, es), k, c)
    ensures Denotes(n, k, m) && Steps(EditsOn(es, k), m, c)
    decreases |es|
  {
    if |es| == 0 {
      m := c;
    } else {
      var e := es[0];
      var n1 := Apply(n, e, !e.guaranteed);
      ApplyOrdered(n, e, !e.guaranteed, lo, hi);
      MixNext(n, es, k, lo, hi);
      var x := MixStep(n1, es[1..], k, lo, hi, c);
      m := MixTurn(n, e, k, lo, hi, x);
      StepsJoin(If(e, k), EditsOn(es[1..], k), m, x, c);
    }
  }

  lemma MixNext(n: Node, es: seq<Edit>, k: Key, lo: Option<Key>, hi: Option<Key>)
    requires n.Internal? && Ordered(n, lo, hi) && |es| > 0
    requires MixOK(Pending(n, k), EditsOn(es, k))
    ensures var e := es[0]; var n1 := Apply(n, e, !e.guaranteed);
            && n1.Internal?
            && (k == e.key && !e.guaranteed ==> AllHarmless(Pending(n, k), e))
            && MixOK(Pending(n1, k), EditsOn(es[1..], k))
  {
    var e := es[0];
    var rest := EditsOn(es[1..], k);
    if e.guaranteed {
      ShallowPends(n, e, k);
    } else {
      DeepMeans(n, e, k, lo, hi);
    }
    if k == e.key {
      assert EditsOn(es, k) == [e] + rest && EditsOn(es, k)[1..] == rest;
    } else {
      assert EditsOn(es, k) == rest;
      assert Pending(n, k) + [] == Pending(n, k);
    }
  }

  /** What the queue of one branch may be applied to. */
  ghost predicate ApplyOK(n: Node, es: seq<Edit>) {
    match n
    case Leaf(l) => MergeOK(l, es)
    case Internal(_, _) => forall k :: MixOK(Pending(n, k), EditsOn(es, k))
  }

  lemma MergeLeafStep(l: Leaves.Valid, es: seq<Edit>, k: Key)
    requires SortedEdits(es) && MergeOK(l, es)
    ensures Steps(EditsOn(es, k), Leaves.LeafBag(l, k), Leaves.LeafBag(MergeLeaf(l, es), k))
  {
    hide Bag, EditsOn, Merge, Steps, ChainMerging.Fitting;
    FitsRuns(l, es);
    if l.chain.Node? {
      ChainMerging.ListExact(l, es);
    } else {
      MergeRefines(l.pairs, es, k);
      var r := MergeLeaf(l, es);
      assert Leaves.LeafBag(l, k) == Bag(l.pairs, k) && Leaves.LeafBag(r, k) == Bag(r.pairs, k);
    }
  }

  lemma RangeSorted(bs: seq<Branch>, q: seq<Edit>, i: nat)
    requires i < |bs| && SortedEdits(q)
    ensures SortedEdits(Range(bs, q, i))
  {
  }

  /** Applying a branch's edits takes every key's edits in order, and keeps the search order. */
  lemma ApplyEditsStep(n: Node, es: seq<Edit>, lo: Option<Key>, hi: Option<Key>, k: Key, c: Values) returns (m: Values)
    requires Ordered(n, lo, hi) && SortedEdits(es) && EditsWithin(es, lo, hi) && ApplyOK(n, es)
    requires Denotes(ApplyEdits(n, es), k, c)
    ensures Denotes(n, k, m) && Steps(EditsOn(es, k), m, c)
  {
    if |es| == 0 {
      m := c;
    } else {
      match n
      case Leaf(l) =>
        m := Held(n, k);
        MergeLeafStep(l, es, k);
      case Internal(_, _) =>
        m := MixStep(n, es, k, lo, hi, c);
    }
  }

  lemma ApplyEditsOrdered(n: Node, es: seq<Edit>, lo: Option<Key>, hi: Option<Key>)
    requires Ordered(n, lo, hi) && SortedEdits(es) && EditsWithin(es, lo, hi)
    ensures Ordered(ApplyEdits(n, es), lo, hi)
  {
    if |es| > 0 {
      match n
      case Leaf(l) =>
        MergeFromSorted([], l.pairs, es, lo, hi);
      case Internal(_, _) => MixOrdered(n, es, lo, hi);
    }
  }

  // ---------------------------------------------------------------- the queue of a node

  ghost predicate AllApplyOK(bs: seq<Branch>, q: seq<Edit>) {
    forall i :: 0 <= i < |bs| ==> ApplyOK(bs[i].child, Range(bs, q, i))
  }

  lemma AppliedOrdered(bs: seq<Branch>, q: seq<Edit>, lo: Option<Key>, hi: Option<Key>)
    requires Ordered(Internal(bs, q), lo, hi)
    ensures OrderedList(ApplyBranches(bs, q), lo, hi)
  {
    var cs := ApplyBranches(bs, q);
    assert Separators(cs, lo, hi);
    forall i | 0 <= i < |cs|
      ensures Ordered(cs[i].child, Lo(cs, i, lo), Hi(cs, i, hi))
    {
      RangeWithin(bs, q, lo, hi, i);
      RangeSorted(bs, q, i);
      ApplyEditsOrdered(bs[i].child, Range(bs, q, i), Lo(bs, i, lo), Hi(bs, i, hi));
      assert Lo(cs, i, lo) == Lo(bs, i, lo) && Hi(cs, i, hi) == Hi(bs, i, hi);
    }
  }

  /** Emptying the queue into the children resolves choices but adds none. */
  lemma AppliedStep(bs: seq<Branch>, q: seq<Edit>, lo: Option<Key>, hi: Option<Key>, k: Key, c: Values)
    requires Ordered(Internal(bs, q), lo, hi) && AllApplyOK(bs, q) && Within(lo, hi, k)
    requires Denotes(AsNode(ApplyBranches(bs, q)), k, c)
    ensures Denotes(Internal(bs, q), k, c)
  {
    var cs := ApplyBranches(bs, q);
    var r := Route(bs, k);
    RouteSame(bs, cs, k);
    ListPends(cs, k);
    RangeWithin(bs, q, lo, hi, r);
    RangeSorted(bs, q, r);
    RangeOn(bs, q, lo, hi, r, k);
    var m := ApplyEditsStep(bs[r].child, Range(bs, q, r), Lo(bs, r, lo), Hi(bs, r, hi), k, c);
    StepsJoin(Pending(bs[r].child, k), EditsOn(q, k), Held(bs[r].child, k), m, c);
  }

  // ---------------------------------------------------------------- replacing a branch

  /** Equal separators and children; ids, counts and load marks may differ. */
  ghost predicate SameList(a: seq<Branch>, d: seq<Branch>) {
    |a| == |d| && forall j :: 0 <= j < |a| ==> a[j].minKey == d[j].minKey && a[j].child == d[j].child
  }

  lemma SameListMeans(a: seq<Branch>, d: seq<Branch>, lo: Option<Key>, hi: Option<Key>, k: Key)
    requires SameList(a, d) && OrderedList(a, lo, hi)
    ensures OrderedList(d, lo, hi) && SameMeaning(AsNode(d), AsNode(a), k)
  {
    assert Separators(d, lo, hi);
    forall j | 0 <= j < |a|
      ensures Ordered(d[j].child, Lo(d, j, lo), Hi(d, j, hi))
    {
      assert Lo(d, j, lo) == Lo(a, j, lo) && Hi(d, j, hi) == Hi(a, j, hi);
    }
    RouteSame(a, d, k);
    SameChild(a, d, k);
  }

  lemma UpdateIs(b: Branch, split: seq<Branch>)
    requires |split| > 0 && Update(b, split) != []
    ensures SameList(WithFirst(split, b.minKey), Update(b, split))
  {
    var u := Update(b, split);
    forall j | 0 <= j < |split|
      ensures u[j].minKey == WithFirst(split, b.minKey)[j].minKey && u[j].child == split[j].child
    {
      if j > 0 {
        assert u[j] == split[1..][j - 1] == split[j];
      }
    }
  }

  /** updateBranch removes this result. */
  predicate Dropped(r: seq<Branch>) {
    |r| == 1 && r[0].count == 0
  }

  /** An internal node that lost all its branches. */
  predicate Branchless(r: seq<Branch>) {
    |r| == 1 && r[0].child.Internal? && |r[0].child.branches| == 0
  }

  /** A list without a first separator, in order, that stands for nothing n did not stand for. */
  ghost predicate Flushed(n: Node, r: seq<Branch>, lo: Option<Key>, hi: Option<Key>) {
    |r| > 0 && r[0].minKey == None && OrderedList(r, lo, hi) && Refines(AsNode(r), n, lo, hi)
  }

  /** What is asked of a flushed child: removed only if nothing was left in it, and not kept without branches. */
  ghost predicate DropOK(n: Node, r: seq<Branch>, lo: Option<Key>, hi: Option<Key>) {
    && (Dropped(r) ==> Hollow(n, lo, hi))
    && (Branchless(r) ==> Dropped(r))
  }

  /**
   * The code gets through a leaf: its chain in memory can be pushed down, every
   * new chain too, and the assertion that an old chain finds a right leaf holds.
   */
  predicate LeafPasses(cfg: Config, l: Leaves.Valid) {
    && (l.chain.Node? && l.chain.loaded ==> Movable(cfg.block, l.chain))
    && NotStranded(cfg, PushedLeaf(cfg, l))
    && ChainsEnd(cfg, l.pairs)
  }

  /** No batch leaves a chain behind no pair. */
  ghost predicate AllMergeRuns(bs: seq<Branch>, q: seq<Edit>) {
    forall i :: 0 <= i < |bs| && bs[i].child.Leaf? ==> MergeRuns(bs[i].child.leaf, Range(bs, q, i))
  }

  /** The code gets through the flush, whatever becomes of the meaning. */
  ghost predicate Passable(cfg: Config, n: Node)
    decreases Height(n), 1
  {
    match n
    case Leaf(l) => LeafPasses(cfg, l)
    case Internal(bs, q) =>
      MaybeHeight(cfg, bs, q);
      var cs := MaybeApply(cfg, bs, q).0;
      && (QueueSize(cfg, q) > cfg.queue ==> AllMergeRuns(bs, q))
      && (forall i :: 0 <= i < |cs| && cs[i].loaded ==> PassableBelow(cfg, cs, i))
  }

  ghost predicate PassableBelow(cfg: Config, cs: seq<Branch>, i: nat)
    requires i < |cs|
    decreases 1 + MaxHeight(cs), 0
  {
    MaxHeightBounds(cs, i);
    Passable(cfg, cs[i].child)
  }

  /**
   * The conditions of the code, at every node the flush visits: it gets through,
   * applyAll and deep edits meet nothing they would overtake, and a child is
   * removed only when nothing is left in it.
   */
  ghost predicate FlushOK(cfg: Config, n: Node, lo: Option<Key>, hi: Option<Key>)
    decreases Height(n), 1
  {
    match n
    case Leaf(l) => LeafPasses(cfg, l)
    case Internal(bs, q) =>
      MaybeHeight(cfg, bs, q);
      var cs := MaybeApply(cfg, bs, q).0;
      && (QueueSize(cfg, q) > cfg.queue ==> AllApplyOK(bs, q))
      && (forall i :: 0 <= i < |cs| && cs[i].loaded ==> ChildOK(cfg, cs, i, lo, hi))
  }

  ghost predicate ChildOK(cfg: Config, cs: seq<Branch>, i: nat, lo: Option<Key>, hi: Option<Key>)
    requires i < |cs|
    decreases 1 + MaxHeight(cs), 0
  {
    MaxHeightBounds(cs, i);
    && FlushOK(cfg, cs[i].child, Lo(cs, i, lo), Hi(cs, i, hi))
    && DropOK(cs[i].child, Flush(cfg, cs[i].child), Lo(cs, i, lo), Hi(cs, i, hi))
  }

  lemma ApplyRuns(bs: seq<Branch>, q: seq<Edit>)
    requires SortedEdits(q) && AllApplyOK(bs, q)
    ensures AllMergeRuns(bs, q)
  {
    hide MergeOK, MergeRuns;
    forall i | 0 <= i < |bs| && bs[i].child.Leaf?
      ensures MergeRuns(bs[i].child.leaf, Range(bs, q, i))
    {
      RangeSorted(bs, q, i);
      assert ApplyOK(bs[i].child, Range(bs, q, i));
      FitsRuns(bs[i].child.leaf, Range(bs, q, i));
    }
  }

  /** Where every step of the flush is in order, the code gets through it. */
  lemma {:induction false} FlushPasses(cfg: Config, n: Node, lo: Option<Key>, hi: Option<Key>)
    requires Ordered(n, lo, hi) && FlushOK(cfg, n, lo, hi)
    ensures Passable(cfg, n)
    decreases Height(n)
  {
    hide AllApplyOK, AllMergeRuns, DropOK, QueueSize;
    match n
    case Leaf(_) =>
    case Internal(bs, q) =>
      var cs := MaybeApply(cfg, bs, q).0;
      MaybeHeight(cfg, bs, q);
      OrderedParts(n, lo, hi);
      if QueueSize(cfg, q) > cfg.queue {
        ApplyRuns(bs, q);
      }
      MaybeStep(cfg, bs, q, lo, hi);
      forall i | 0 <= i < |cs| && cs[i].loaded
        ensures PassableBelow(cfg, cs, i)
      {
        MaxHeightBounds(cs, i);
        assert ChildOK(cfg, cs, i, lo, hi);
        FlushPasses(cfg, cs[i].child, Lo(cs, i, lo), Hi(cs, i, hi));
      }
  }

  /** The lower end of what a list serves: its first separator, if it has one. */
  function HeadLo(f: seq<Branch>, lo: Option<Key>): Option<Key> {
    if |f| > 0 && f[0].minKey.Some? then f[0].minKey else lo
  }

  /** The list f takes the place of the branches of bs from i on; below its first separator nothing was left. */
  ghost predicate Serves(f: seq<Branch>, bs: seq<Branch>, i: nat, lo: Option<Key>, hi: Option<Key>)
    requires i < |bs|
  {
    if |f| == 0 then Hollow(AsNode(bs), Lo(bs, i, lo), hi)
    else
      && (i > 0 ==> f[0].minKey.Some?)
      && (f[0].minKey.Some? ==>
            && Within(Lo(bs, i, lo), hi, f[0].minKey.value)
            && Hollow(AsNode(bs), Lo(bs, i, lo), f[0].minKey))
      && OrderedList(f, HeadLo(f, Lo(bs, i, lo)), hi)
      && Refines(AsNode(f), AsNode(bs), HeadLo(f, Lo(bs, i, lo)), hi)
  }

  // -- one branch

  lemma RoutedMeans(bs: seq<Branch>, i: nat, lo: Option<Key>, hi: Option<Key>, k: Key, c: Values)
    requires OrderedList(bs, lo, hi) && i < |bs| && Within(Lo(bs, i, lo), Hi(bs, i, hi), k)
    ensures Within(lo, hi, k)
    ensures Denotes(AsNode(bs), k, c) <==> Denotes(bs[i].child, k, c)
  {
    WithinBounds(bs, lo, hi, i, k);
    RouteIs(bs, lo, hi, k, i);
    ListPends(bs, k);
  }

  /** What one branch of the flush loop puts in place of branch i. */
  ghost predicate SegmentOf(a: seq<Branch>, bs: seq<Branch>, i: nat, lo: Option<Key>, hi: Option<Key>)
    requires i < |bs|
  {
    if |a| == 0 then Hollow(AsNode(bs), Lo(bs, i, lo), Hi(bs, i, hi))
    else
      && a[0].minKey == bs[i].minKey
      && OrderedList(a, Lo(bs, i, lo), Hi(bs, i, hi))
      && Refines(AsNode(a), AsNode(bs), Lo(bs, i, lo), Hi(bs, i, hi))
  }

  lemma KeptSegment(bs: seq<Branch>, i: nat, lo: Option<Key>, hi: Option<Key>)
    requires OrderedList(bs, lo, hi) && i < |bs|
    ensures SegmentOf([bs[i]], bs, i, lo, hi)
  {
    var a := [bs[i]];
    forall k, c | Within(Lo(bs, i, lo), Hi(bs, i, hi), k) && Denotes(AsNode(a), k, c)
      ensures Denotes(AsNode(bs), k, c)
    {
      ListPends(a, k);
      RoutedMeans(bs, i, lo, hi, k, c);
    }
  }

  lemma DroppedSegment(bs: seq<Branch>, i: nat, lo: Option<Key>, hi: Option<Key>)
    requires OrderedList(bs, lo, hi) && i < |bs| && Hollow(bs[i].child, Lo(bs, i, lo), Hi(bs, i, hi))
    ensures SegmentOf([], bs, i, lo, hi)
  {
    forall k, c | Within(Lo(bs, i, lo), Hi(bs, i, hi), k) && Denotes(AsNode(bs), k, c)
      ensures c == multiset{}
    {
      RoutedMeans(bs, i, lo, hi, k, c);
    }
  }

  lemma UpdatedSegment(bs: seq<Branch>, i: nat, r: seq<Branch>, lo: Option<Key>, hi: Option<Key>)
    requires OrderedList(bs, lo, hi) && bs[0].minKey == None && i < |bs|
    requires Flushed(bs[i].child, r, Lo(bs, i, lo), Hi(bs, i, hi)) && !Dropped(r)
    ensures SegmentOf(Update(bs[i], r), bs, i, lo, hi)
  {
    var a, w := Update(bs[i], r), WithFirst(r, bs[i].minKey);
    var l, h := Lo(bs, i, lo), Hi(bs, i, hi);
    UpdateIs(bs[i], r);
    WithFirstOrdered(r, bs[i].minKey, l, h);
    SameListMeans(w, a, l, h, 0);
    forall k, c | Within(l, h, k) && Denotes(AsNode(a), k, c)
      ensures Denotes(AsNode(bs), k, c)
    {
      SameListMeans(w, a, l, h, k);
      WithFirstMeans(r, bs[i].minKey, l, h, k);
      assert Denotes(AsNode(r), k, c);
      RoutedMeans(bs, i, lo, hi, k, c);
    }
  }

  // -- all branches

  lemma HollowUnion(n: Node, lo: Option<Key>, mid: Option<Key>, hi: Option<Key>)
    requires Hollow(n, lo, mid) && Hollow(n, mid, hi)
    ensures mid.Some? ==> Hollow(n, lo, hi)
  {
    if mid.Some? {
      forall k, c | Within(lo, hi, k) && Denotes(n, k, c)
        ensures c == multiset{}
      {
        assert Within(lo, mid, k) || Within(mid, hi, k);
      }
    }
  }

  lemma HollowDenotes(n: Node, lo: Option<Key>, hi: Option<Key>, k: Key)
    requires Hollow(n, lo, hi) && Within(lo, hi, k)
    ensures Denotes(n, k, multiset{})
  {
    var c := DenotesSome(n, k);
    assert c == multiset{};
  }

  /** Outside the keys it serves, an ordered list stands for nothing, as does a hollow stretch of bs. */
  lemma OutsideRefines(f: seq<Branch>, bs: seq<Branch>, flo: Option<Key>, fhi: Option<Key>, lo: Option<Key>,
                       hi: Option<Key>, k: Key, c: Values)
    requires OrderedList(f, flo, fhi) && !Within(flo, fhi, k) && Denotes(AsNode(f), k, c)
    requires Hollow(AsNode(bs), lo, hi) && Within(lo, hi, k)
    ensures Denotes(AsNode(bs), k, c)
  {
    ListIsNode(f, flo, fhi);
    OutsideMeans(AsNode(f), flo, fhi, k);
    HollowDenotes(AsNode(bs), lo, hi, k);
  }

  lemma LastServes(a: seq<Branch>, bs: seq<Branch>, i: nat, lo: Option<Key>, hi: Option<Key>)
    requires OrderedList(bs, lo, hi) && bs[0].minKey == None && i + 1 == |bs|
    requires SegmentOf(a, bs, i, lo, hi)
    ensures Serves(a, bs, i, lo, hi)
  {
  }

  lemma SkipServes(f: seq<Branch>, bs: seq<Branch>, i: nat, lo: Option<Key>, hi: Option<Key>)
    requires OrderedList(bs, lo, hi) && bs[0].minKey == None && i + 1 < |bs|
    requires SegmentOf([], bs, i, lo, hi) && Serves(f, bs, i + 1, lo, hi)
    ensures Serves(f, bs, i, lo, hi)
  {
    SeparatorsGrow(bs, i, lo, hi);
    HollowUnion(AsNode(bs), Lo(bs, i, lo), bs[i + 1].minKey, if |f| == 0 then hi else f[0].minKey);
  }

  lemma SeparatorsGrow(bs: seq<Branch>, i: nat, lo: Option<Key>, hi: Option<Key>)
    requires Separators(bs, lo, hi) && i + 1 < |bs|
    ensures bs[i + 1].minKey.Some? && StrictlyWithin(Lo(bs, i, lo), hi, bs[i + 1].minKey.value)
  {
  }

  lemma AloneServes(a: seq<Branch>, bs: seq<Branch>, i: nat, lo: Option<Key>, hi: Option<Key>)
    requires OrderedList(bs, lo, hi) && bs[0].minKey == None && i + 1 < |bs| && |a| > 0
    requires SegmentOf(a, bs, i, lo, hi) && Serves([], bs, i + 1, lo, hi)
    ensures Serves(a, bs, i, lo, hi)
  {
    var l, h := Lo(bs, i, lo), Hi(bs, i, hi);
    SeparatorsGrow(bs, i, lo, hi);
    WidenList(a, l, h, l, hi);
    forall k, c | Within(l, hi, k) && Denotes(AsNode(a), k, c)
      ensures Denotes(AsNode(bs), k, c)
    {
      if !Within(l, h, k) {
        OutsideRefines(a, bs, l, h, h, hi, k, c);
      }
    }
  }

  lemma JoinedServes(a: seq<Branch>, f: seq<Branch>, bs: seq<Branch>, i: nat, lo: Option<Key>, hi: Option<Key>)
    requires OrderedList(bs, lo, hi) && bs[0].minKey == None && i + 1 < |bs| && |a| > 0 && |f| > 0
    requires SegmentOf(a, bs, i, lo, hi) && Serves(f, bs, i + 1, lo, hi)
    ensures Serves(a + f, bs, i, lo, hi)
  {
    var l, h, m := Lo(bs, i, lo), Hi(bs, i, hi), f[0].minKey;
    JoinableSegments(a, f, bs, i, lo, hi);
    JoinOrdered(a, f, m.value, l, hi);
    forall k, c | Within(l, hi, k) && Denotes(AsNode(a + f), k, c)
      ensures Denotes(AsNode(bs), k, c)
    {
      JoinMeans(a, f, m.value, l, hi, k);
      if k < m.value {
        assert Denotes(AsNode(a), k, c);
        if !Within(l, h, k) {
          OutsideRefines(a, bs, l, h, h, m, k, c);
        }
      } else {
        assert Denotes(AsNode(f), k, c);
      }
    }
    assert (a + f)[0] == a[0];
  }

  lemma JoinableSegments(a: seq<Branch>, f: seq<Branch>, bs: seq<Branch>, i: nat, lo: Option<Key>, hi: Option<Key>)
    requires OrderedList(bs, lo, hi) && bs[0].minKey == None && i + 1 < |bs| && |a| > 0 && |f| > 0
    requires SegmentOf(a, bs, i, lo, hi) && Serves(f, bs, i + 1, lo, hi)
    ensures f[0].minKey.Some? && Joinable(a, f, f[0].minKey.value, Lo(bs, i, lo), hi)
    ensures AtLeast(Hi(bs, i, hi), f[0].minKey.value)
  {
    var l, h, m := Lo(bs, i, lo), Hi(bs, i, hi), f[0].minKey;
    SeparatorsGrow(bs, i, lo, hi);
    WidenList(a, l, h, l, m);
  }

  /** The flush loop replaces the branches by a list that serves the same keys and stands for nothing new. */
  lemma {:induction false} FlushFromServes(cfg: Config, bs: seq<Branch>, i: nat, lo: Option<Key>, hi: Option<Key>)
    requires OrderedList(bs, lo, hi) && bs[0].minKey == None && i < |bs|
    requires forall j :: 0 <= j < |bs| ==> Parsed(bs[j].child)
    requires forall j :: 0 <= j < |bs| && bs[j].loaded ==> ChildOK(cfg, bs, j, lo, hi)
    ensures Serves(FlushFrom(cfg, bs, i), bs, i, lo, hi)
    decreases 1 + MaxHeight(bs), 0, 1 + |bs| - i
  {
    MaxHeightBounds(bs, i);
    var a := if bs[i].loaded then Update(bs[i], Flush(cfg, bs[i].child)) else [bs[i]];
    FlushSegment(cfg, bs, i, lo, hi);
    if i + 1 == |bs| {
      assert FlushFrom(cfg, bs, i) == a + [] == a;
      LastServes(a, bs, i, lo, hi);
    } else {
      var f := FlushFrom(cfg, bs, i + 1);
      FlushFromServes(cfg, bs, i + 1, lo, hi);
      CombineServes(a, f, bs, i, lo, hi);
    }
  }

  lemma CombineServes(a: seq<Branch>, f: seq<Branch>, bs: seq<Branch>, i: nat, lo: Option<Key>, hi: Option<Key>)
    requires OrderedList(bs, lo, hi) && bs[0].minKey == None && i + 1 < |bs|
    requires SegmentOf(a, bs, i, lo, hi) && Serves(f, bs, i + 1, lo, hi)
    ensures Serves(a + f, bs, i, lo, hi)
  {
    if |a| == 0 {
      assert a + f == f;
      SkipServes(f, bs, i, lo, hi);
    } else if |f| == 0 {
      assert a + f == a;
      AloneServes(a, bs, i, lo, hi);
    } else {
      JoinedServes(a, f, bs, i, lo, hi);
    }
  }

  lemma {:induction false} FlushSegment(cfg: Config, bs: seq<Branch>, i: nat, lo: Option<Key>, hi: Option<Key>)
    requires OrderedList(bs, lo, hi) && bs[0].minKey == None && i < |bs|
    requires Parsed(bs[i].child)
    requires bs[i].loaded ==> ChildOK(cfg, bs, i, lo, hi)
    ensures var a := if bs[i].loaded then Update(bs[i], Flush(cfg, bs[i].child)) else [bs[i]];
            SegmentOf(a, bs, i, lo, hi)
    decreases 1 + MaxHeight(bs), 0, 0
  {
    if bs[i].loaded {
      MaxHeightBounds(bs, i);
      var r := Flush(cfg, bs[i].child);
      if Dropped(r) {
        DroppedSegment(bs, i, lo, hi);
      } else {
        FlushMeans(cfg, bs[i].child, Lo(bs, i, lo), Hi(bs, i, hi));
        UpdatedSegment(bs, i, r, lo, hi);
      }
    } else {
      KeptSegment(bs, i, lo, hi);
    }
  }

  // ---------------------------------------------------------------- flush keeps the meaning

  lemma PushedBag(cfg: Config, l: Leaves.Valid, k: Key)
    ensures Leaves.LeafBag(PushedLeaf(cfg, l), k) == Leaves.LeafBag(l, k)
    ensures Leaves.Count(PushedLeaf(cfg, l)) == Leaves.Count(l)
    ensures PushedLeaf(cfg, l).pairs == l.pairs
  {
    PushDownKeeps(cfg.block, l.chain);
  }

  lemma EmptySplit(cfg: Config, l: Leaves.Valid)
    requires |l.pairs| == 0
    ensures SplitLeaf(cfg, l) == [LeafBranch(None, l)]
  {
  }

  lemma LeafSplitOrdered(cfg: Config, l: Leaves.Valid, lo: Option<Key>, hi: Option<Key>)
    requires Ordered(Leaf(l), lo, hi)
    ensures OrderedList(SplitLeaf(cfg, l), lo, hi) && SplitLeaf(cfg, l)[0].minKey == None
  {
    if |l.pairs| == 0 {
      EmptySplit(cfg, l);
      SingleOrdered(LeafBranch(None, l), lo, hi);
    } else {
      SplitLeafOrdered(cfg, l, lo, hi);
    }
  }

  /** A list of leaves holds for each key what its contents hold. */
  lemma LeavesHold(r: seq<Branch>, lo: Option<Key>, hi: Option<Key>, k: Key)
    requires OrderedList(r, lo, hi) && Within(lo, hi, k)
    requires forall i :: 0 <= i < |r| ==> r[i].child.Leaf?
    ensures Pending(AsNode(r), k) == [] && Held(AsNode(r), k) == Bag(ListContent(r), k)
  {
    ListPends(r, k);
    ListIsNode(r, lo, hi);
    ContentDenoted(AsNode(r), lo, hi, k);
    ListContentIs(r);
  }

  lemma LeafSplitMeans(cfg: Config, l: Leaves.Valid, lo: Option<Key>, hi: Option<Key>, k: Key)
    requires Ordered(Leaf(l), lo, hi) && NotStranded(cfg, l) && Within(lo, hi, k)
    ensures Pending(AsNode(SplitLeaf(cfg, l)), k) == [] && Held(AsNode(SplitLeaf(cfg, l)), k) == Leaves.LeafBag(l, k)
  {
    LeafSplitOrdered(cfg, l, lo, hi);
    SplitLeafCounted(cfg, l);
    LeavesHold(SplitLeaf(cfg, l), lo, hi, k);
    SplitLeafContent(cfg, l);
    BagItems(l, k);
  }

  lemma LeafFlushed(cfg: Config, l: Leaves.Valid, lo: Option<Key>, hi: Option<Key>)
    requires Ordered(Leaf(l), lo, hi) && NotStranded(cfg, PushedLeaf(cfg, l))
    ensures Flushed(Leaf(l), Flush(cfg, Leaf(l)), lo, hi)
    ensures !Branchless(Flush(cfg, Leaf(l)))
  {
    var p := PushedLeaf(cfg, l);
    PushedBag(cfg, l, 0);
    SplitLeafCounted(cfg, p);
    LeafSplitOrdered(cfg, p, lo, hi);
    forall k, c | Within(lo, hi, k) && Denotes(AsNode(Flush(cfg, Leaf(l))), k, c)
      ensures Denotes(Leaf(l), k, c)
    {
      LeafSplitMeans(cfg, p, lo, hi, k);
      PushedBag(cfg, l, k);
    }
  }

  lemma MaybeOrdered(cfg: Config, bs: seq<Branch>, q: seq<Edit>, lo: Option<Key>, hi: Option<Key>)
    requires Ordered(Internal(bs, q), lo, hi)
    ensures var (cs, p) := MaybeApply(cfg, bs, q); Ordered(Internal(cs, p), lo, hi)
  {
    hide Ordered, ApplyBranches;
    if QueueSize(cfg, q) > cfg.queue {
      AppliedOrdered(bs, q, lo, hi);
      ListIsOrdered(ApplyBranches(bs, q), lo, hi);
    }
  }

  lemma ListIsOrdered(cs: seq<Branch>, lo: Option<Key>, hi: Option<Key>)
    requires OrderedList(cs, lo, hi)
    ensures Ordered(Internal(cs, []), lo, hi)
  {
  }

  /** The branches after the queue has been looked at: in order, and standing for nothing new. */
  lemma MaybeStep(cfg: Config, bs: seq<Branch>, q: seq<Edit>, lo: Option<Key>, hi: Option<Key>)
    requires Ordered(Internal(bs, q), lo, hi) && (QueueSize(cfg, q) > cfg.queue ==> AllApplyOK(bs, q))
    ensures var (cs, p) := MaybeApply(cfg, bs, q);
            Ordered(Internal(cs, p), lo, hi) && Refines(Internal(cs, p), Internal(bs, q), lo, hi)
  {
    if QueueSize(cfg, q) > cfg.queue {
      AppliedOrdered(bs, q, lo, hi);
      forall k, c | Within(lo, hi, k) && Denotes(AsNode(ApplyBranches(bs, q)), k, c)
        ensures Denotes(Internal(bs, q), k, c)
      {
        AppliedStep(bs, q, lo, hi, k, c);
      }
    }
  }

  lemma {:induction false} MixParsed(n: Node, es: seq<Edit>)
    requires Parsed(n)
    ensures Parsed(MixMany(n, es))
    decreases |es|
  {
    if |es| > 0 {
      ApplyParsed(n, es[0], !es[0].guaranteed);
      MixParsed(Apply(n, es[0], !es[0].guaranteed), es[1..]);
    }
  }

  lemma MaybeParsed(cfg: Config, bs: seq<Branch>, q: seq<Edit>)
    requires Parsed(Internal(bs, q))
    ensures Parsed(Internal(MaybeApply(cfg, bs, q).0, MaybeApply(cfg, bs, q).1))
  {
    var cs := MaybeApply(cfg, bs, q).0;
    forall i | 0 <= i < |cs|
      ensures Parsed(cs[i].child)
    {
      if bs[i].child.Internal? {
        MixParsed(bs[i].child, Range(bs, q, i));
      }
    }
  }

  /** Replacing the branches of a node by a list that refines them keeps what the node stands for. */
  lemma RefinesUnder(f: seq<Branch>, bs: seq<Branch>, q: seq<Edit>, lo: Option<Key>, hi: Option<Key>)
    requires |f| > 0 && |bs| > 0 && Refines(AsNode(f), AsNode(bs), lo, hi)
    ensures Refines(Internal(f, q), Internal(bs, q), lo, hi)
  {
    forall k, c | Within(lo, hi, k) && Denotes(Internal(f, q), k, c)
      ensures Denotes(Internal(bs, q), k, c)
    {
      ListPends(f, k);
      ListPends(bs, k);
      var m := StepsSplit(Pending(AsNode(f), k), EditsOn(q, k), Held(AsNode(f), k), c);
      assert Denotes(AsNode(f), k, m);
      assert Denotes(AsNode(bs), k, m);
      StepsJoin(Pending(AsNode(bs), k), EditsOn(q, k), Held(AsNode(bs), k), m, c);
    }
  }

  /** What the flush loop leaves, if it leaves anything, serves the node's whole range. */
  lemma ServedAll(f: seq<Branch>, bs: seq<Branch>, lo: Option<Key>, hi: Option<Key>)
    requires OrderedList(bs, lo, hi) && |f| > 0 && Serves(f, bs, 0, lo, hi)
    ensures OrderedList(f, lo, hi) && Refines(AsNode(f), AsNode(bs), lo, hi)
  {
    var s := HeadLo(f, lo);
    WidenList(f, s, hi, lo, hi);
    forall k, c | Within(lo, hi, k) && Denotes(AsNode(f), k, c)
      ensures Denotes(AsNode(bs), k, c)
    {
      if !Within(s, hi, k) {
        OutsideRefines(f, bs, s, hi, lo, s, k, c);
      }
    }
  }

  lemma SplitFlushed(cfg: Config, f: seq<Branch>, q: seq<Edit>, n: Node, lo: Option<Key>, hi: Option<Key>)
    requires Ordered(Internal(f, q), lo, hi) && Refines(Internal(f, q), n, lo, hi)
    ensures Flushed(n, SplitInternal(cfg, f, q), lo, hi)
  {
    var r := SplitInternal(cfg, f, q);
    SplitInternalOrdered(cfg, f, q, lo, hi);
    forall k, c | Within(lo, hi, k) && Denotes(AsNode(r), k, c)
      ensures Denotes(n, k, c)
    {
      SplitInternalMeans(cfg, f, q, lo, hi, k);
      assert Denotes(Internal(f, q), k, c);
    }
  }

  /**
   * Flushing a tree yields an ordered list of branches that stands for nothing
   * the tree did not stand for.
   */
  lemma {:induction false} FlushMeans(cfg: Config, n: Node, lo: Option<Key>, hi: Option<Key>)
    requires Ordered(n, lo, hi) && Parsed(n) && FlushOK(cfg, n, lo, hi) && !Branchless(Flush(cfg, n))
    ensures Flushed(n, Flush(cfg, n), lo, hi)
    decreases Height(n), 1, 0
  {
    match n
    case Leaf(l) => LeafFlushed(cfg, l, lo, hi);
    case Internal(bs, q) =>
      var (cs, p) := MaybeApply(cfg, bs, q);
      MaybeStep(cfg, bs, q, lo, hi);
      MaybeParsed(cfg, bs, q);
      MaybeHeight(cfg, bs, q);
      ListIsNode(cs, lo, hi);
      FlushFromServes(cfg, cs, 0, lo, hi);
      var f := FlushFrom(cfg, cs, 0);
      NotBranchless(cfg, f, p);
      ServedAll(f, cs, lo, hi);
      RefinesUnder(f, cs, p, lo, hi);
      SplitFlushed(cfg, f, p, n, lo, hi);
  }

  lemma NotBranchless(cfg: Config, f: seq<Branch>, p: seq<Edit>)
    requires !Branchless(SplitInternal(cfg, f, p))
    ensures |f| > 0
  {
    if |f| == 0 {
      Unsplit(cfg, f, p);
    }
  }
}
