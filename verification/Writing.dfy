/** write(): flushing a tree that can be trusted, growing the root, and reading it back. */
module Writing {
  import opened Types
  import opened Multimap
  import opened Tree
  import opened Meaning
  import opened Lookup
  import opened Contents
  import opened Counting
  import opened BranchLists
  import opened Splitting
  import opened Merging
  import opened Flushing
  import opened Trust
  import opened Passing
  import Leaves
  import Overflow

  // ---------------------------------------------------------------- counts through a merge

  lemma ModifyLength(u: seq<Pair>, e: Edit)
    requires Sorted(u) && (forall i :: 0 <= i < |u| ==> u[i].key <= e.key) && e.op != INSERT
    ensures |Modify(u, e)| - |u| == |Bag(Modify(u, e), e.key)| - |Bag(u, e.key)|
  {
    hide Bag, LastHit;
    var i := LastHit(u, e, |u|);
    if i >= 0 {
      BagUpdateAt(u, i, Pair(u[i].key, e.value), e.key);
      BagAt(u, i, e.key);
      var b, x, y := Bag(Modify(u, e), e.key), One(u[i], e.key), One(Pair(u[i].key, e.value), e.key);
      assert |b + x| == |b| + 1 && |Bag(u, e.key) + y| == |Bag(u, e.key)| + 1;
    } else {
      BagConcat(u, [Pair(e.key, e.value)], e.key);
      BagOfOne(Pair(e.key, e.value), e.key);
    }
  }

  ghost predicate MergeTruthful(u: seq<Pair>, c: seq<Pair>, es: seq<Edit>) {
    forall k :: Truthful(EditsOn(es, k), Bag(u, k) + Bag(c, k))
  }

  lemma TruthfulNext(es: seq<Edit>, k: Key, b: Values, m: Values)
    requires |es| > 0 && Truthful(EditsOn(es, k), b) && Steps(If(es[0], k), b, m)
    ensures Truthful(EditsOn(es[1..], k), m)
  {
    TruthfulAfter(If(es[0], k), EditsOn(es[1..], k), b, m);
  }

  lemma FirstEffective(es: seq<Edit>, b: Values)
    requires |es| > 0 && Truthful(EditsOn(es, es[0].key), b) && es[0].guaranteed
    ensures Effective(es[0], b)
  {
    assert EditsOn(es, es[0].key)[0] == es[0];
  }

  lemma ModifyDelta(u: seq<Pair>, c: seq<Pair>, es: seq<Edit>)
    requires MergeInv(u, c, es) && Modifies(c, es) && MergeTruthful(u, c, es) && es[0].guaranteed
    ensures |Modify(u, es[0])| == |u| + es[0].Delta()
  {
    var e := es[0];
    FirstEffective(es, Bag(u, e.key) + Bag(c, e.key));
    BagEmpty(c, e.key);
    assert Bag(u, e.key) + Bag(c, e.key) == Bag(u, e.key);
    ModifyStep(u, e, e.key);
    StepDelta(e, Bag(u, e.key), Bag(Modify(u, e), e.key));
    ModifyLength(u, e);
  }

  /** Guaranteed, truthful edits change the number of pairs by their deltas. */
  lemma {:induction false} MergeFromCount(u: seq<Pair>, c: seq<Pair>, es: seq<Edit>)
    requires MergeInv(u, c, es) && MergeTruthful(u, c, es) && AllGuaranteed(es)
    ensures |MergeFrom(u, c, es)| == |u| + |c| + Deltas(es)
    decreases |c| + |es|
  {
    if Modifies(c, es) {
      ModifyInv(u, c, es);
      ModifyDelta(u, c, es);
      forall k
        ensures Truthful(EditsOn(es[1..], k), Bag(Modify(u, es[0]), k) + Bag(c, k))
      {
        ModifyTotal(u, c, es, k);
        TruthfulNext(es, k, Bag(u, k) + Bag(c, k), Bag(Modify(u, es[0]), k) + Bag(c, k));
      }
      MergeFromCount(Modify(u, es[0]), c, es[1..]);
    } else if Inserts(c, es) {
      var v := u + [Pair(es[0].key, es[0].value)];
      InsertInv(u, c, es);
      forall k
        ensures Truthful(EditsOn(es[1..], k), Bag(v, k) + Bag(c, k))
      {
        InsertTotal(u, c, es[0], k);
        TruthfulNext(es, k, Bag(u, k) + Bag(c, k), Bag(v, k) + Bag(c, k));
      }
      MergeFromCount(v, c, es[1..]);
    } else if |c| > 0 {
      CopyInv(u, c, es);
      forall k
        ensures Truthful(EditsOn(es, k), Bag(u + [c[0]], k) + Bag(c[1..], k))
      {
        CopyTotal(u, c, k);
      }
      MergeFromCount(u + [c[0]], c[1..], es);
    }
  }

  lemma MergeLeafCount(l: Leaves.Valid, es: seq<Edit>)
    requires SortedEdits(es) && BelowChain(l, es) && LeafTruthful(l, es) && AllGuaranteed(es)
    ensures Leaves.Count(MergeLeaf(l, es)) == Leaves.Count(l) + Deltas(es)
  {
    BelowFits(l, es);
    FitsRuns(l, es);
    forall k
      ensures Truthful(EditsOn(es, k), Bag([], k) + Bag(l.pairs, k))
    {
      assert Bag([], k) + Bag(l.pairs, k) == Bag(l.pairs, k);
      if l.chain.Node? && k == Last(l.pairs).key {
        EditsOnNone(es, k);
      } else {
        assert Leaves.LeafBag(l, k) == Bag(l.pairs, k);
      }
    }
    MergeFromCount([], l.pairs, es);
  }

  // ---------------------------------------------------------------- counts through a split

  lemma {:induction false} BranchSumConcat(a: seq<Branch>, b: seq<Branch>)
    ensures BranchSum(a + b) == BranchSum(a) + BranchSum(b)
  {
    if |a| == 0 {
      assert a + b == b;
    } else {
      assert (a + b)[1..] == a[1..] + b;
      BranchSumConcat(a[1..], b);
    }
  }

  lemma SumOne(b: Branch)
    ensures BranchSum([b]) == b.count
  {
    assert [b][1..] == [];
  }

  lemma SumFirst(bs: seq<Branch>, sep: Option<Key>)
    requires |bs| > 0
    ensures BranchSum(WithFirst(bs, sep)) == BranchSum(bs)
  {
    assert WithFirst(bs, sep)[1..] == bs[1..];
  }

  /** Splitting an internal node keeps its item count. */
  lemma {:induction false} SplitInternalSum(cfg: Config, bs: seq<Branch>, q: seq<Edit>)
    ensures BranchSum(SplitInternal(cfg, bs, q)) == BranchSum(bs) + GuaranteedDeltas(q)
    decreases |bs|
  {
    if InternalSplits(cfg, bs) && |bs| > 1 {
      SplitTurn(cfg, bs, q);
      var m := bs[1].minKey;
      var c := Cut(q, m);
      var b := NodeBranch(None, Internal(bs[..1], q[..c]));
      var rest := SplitInternal(cfg, bs[1..], q[c..]);
      SplitInternalSum(cfg, bs[1..], q[c..]);
      SumFirst(rest, m);
      SumOne(b);
      BranchSumConcat([b], WithFirst(rest, m));
      SumParts(bs, q, c);
    } else {
      Unsplit(cfg, bs, q);
      SumOne(NodeBranch(None, Internal(bs, q)));
    }
  }

  lemma SumParts(bs: seq<Branch>, q: seq<Edit>, c: nat)
    requires |bs| > 1 && c <= |q|
    ensures BranchSum(bs) == BranchSum(bs[..1]) + BranchSum(bs[1..])
    ensures GuaranteedDeltas(q) == GuaranteedDeltas(q[..c]) + GuaranteedDeltas(q[c..])
  {
    assert bs == bs[..1] + bs[1..] && q == q[..c] + q[c..];
    BranchSumConcat(bs[..1], bs[1..]);
    GuaranteedConcat(q[..c], q[c..]);
  }

  /** A list of leaves with their counts adds up to the items it reads as. */
  lemma {:induction false} LeafListSum(r: seq<Branch>)
    requires forall i :: 0 <= i < |r| ==> r[i].child.Leaf? && r[i].count == ItemCount(r[i].child)
    ensures BranchSum(r) == |ListContent(r)|
  {
    if |r| > 0 {
      Overflow.CountIsLength(r[0].child.leaf.chain);
      LeafListSum(r[1..]);
    }
  }

  lemma SplitLeafSum(cfg: Config, l: Leaves.Valid)
    requires NotStranded(cfg, l)
    ensures BranchSum(SplitLeaf(cfg, l)) == Leaves.Count(l)
  {
    SplitLeafCounted(cfg, l);
    LeafListSum(SplitLeaf(cfg, l));
    SplitLeafContent(cfg, l);
    Overflow.CountIsLength(l.chain);
  }

  // ---------------------------------------------------------------- counts through the flush loop

  function TrueSum(bs: seq<Branch>): int {
    if |bs| == 0 then 0 else ItemCount(bs[0].child) + TrueSum(bs[1..])
  }

  lemma UpdateSum(b: Branch, r: seq<Branch>)
    requires |r| > 0
    ensures BranchSum(Update(b, r)) == BranchSum(r)
  {
    if Dropped(r) {
      SumOne(r[0]);
      assert r == [r[0]];
    } else {
      var u := Update(b, r);
      assert u[1..] == r[1..];
    }
  }

  /** What the flush loop leaves adds up to the items of the children, if each flush keeps its child's. */
  lemma {:induction false} FlushFromSum(cfg: Config, cs: seq<Branch>, i: nat)
    requires i <= |cs|
    requires forall j :: 0 <= j < |cs| ==>
               if cs[j].loaded then BranchSum(Flush(cfg, cs[j].child)) == ItemCount(cs[j].child)
               else cs[j].count == ItemCount(cs[j].child)
    ensures BranchSum(FlushFrom(cfg, cs, i)) == TrueSum(cs[i..])
    decreases |cs| - i
  {
    if i < |cs| {
      FlushFromSum(cfg, cs, i + 1);
      assert cs[i..][1..] == cs[i + 1..];
      if cs[i].loaded {
        UpdateSum(cs[i], Flush(cfg, cs[i].child));
        BranchSumConcat(Update(cs[i], Flush(cfg, cs[i].child)), FlushFrom(cfg, cs, i + 1));
      } else {
        SumOne(cs[i]);
        BranchSumConcat([cs[i]], FlushFrom(cfg, cs, i + 1));
      }
    }
  }

  lemma {:induction false} TrueSumCounted(bs: seq<Branch>)
    requires forall i :: 0 <= i < |bs| ==> bs[i].count == ItemCount(bs[i].child)
    ensures TrueSum(bs) == BranchSum(bs)
  {
    if |bs| > 0 {
      TrueSumCounted(bs[1..]);
    }
  }

  lemma {:induction false} TrueSumFrom(bs: seq<Branch>, q: seq<Edit>, cs: seq<Branch>, i: nat)
    requires |cs| == |bs| && i <= |bs|
    requires forall j :: 0 <= j < |bs| ==>
               ItemCount(cs[j].child) == bs[j].count + GuaranteedDeltas(Range(bs, q, j))
    ensures TrueSum(cs[i..]) == CountFrom(bs, q, i)
    decreases |bs| - i
  {
    if i < |bs| {
      assert cs[i..][1..] == cs[i + 1..];
      TrueSumFrom(bs, q, cs, i + 1);
    }
  }

  // ---------------------------------------------------------------- children of an honest node

  lemma {:induction false} MixIsShallow(n: Node, es: seq<Edit>)
    requires AllGuaranteed(es)
    ensures MixMany(n, es) == ApplyMany(n, es, false)
    decreases |es|
  {
    if |es| > 0 {
      MixIsShallow(Apply(n, es[0], false), es[1..]);
    }
  }

  /** With its guaranteed edits applied, a child's item count is the stored count and the deltas. */
  lemma AppliedCount(n: Node, i: nat, lo: Option<Key>, hi: Option<Key>)
    requires n.Internal? && Ordered(n, lo, hi) && i < |n.branches| && Counted(n) && Honest(n, lo, hi)
    requires ChainClear(n, lo, hi)
    ensures ItemCount(ApplyBranch(n.branches, n.queue, i).child)
         == n.branches[i].count + GuaranteedDeltas(Range(n.branches, n.queue, i))
  {
    var es := Range(n.branches, n.queue, i);
    HonestEdits(n, lo, hi);
    assert AllGuaranteed(es);
    GuaranteedAll(es);
    match n.branches[i].child
    case Leaf(l) =>
      ChildSettles(n, i, lo, hi);
      LeafBatchOK(n, i, lo, hi);
      RangeSorted(n.branches, n.queue, i);
      MergeLeafCount(l, es);
    case Internal(_, _) =>
      MixIsShallow(n.branches[i].child, es);
      ManyShallowCount(n.branches[i].child, es);
  }

  /** Every node the flush visits keeps a branch, or has no items left. */
  ghost predicate KeepsBranches(cfg: Config, n: Node)
    decreases Height(n), 1
  {
    match n
    case Leaf(_) => true
    case Internal(bs, q) =>
      MaybeHeight(cfg, bs, q);
      var cs := MaybeApply(cfg, bs, q).0;
      forall i :: 0 <= i < |cs| && cs[i].loaded ==> KeepsBelow(cfg, cs, i)
  }

  ghost predicate KeepsBelow(cfg: Config, cs: seq<Branch>, i: nat)
    requires i < |cs|
    decreases 1 + MaxHeight(cs), 0
  {
    MaxHeightBounds(cs, i);
    KeepsBranches(cfg, cs[i].child) && (Branchless(Flush(cfg, cs[i].child)) ==> Dropped(Flush(cfg, cs[i].child)))
  }

  /**
   * In search order, with right counts, values of a size that fits, leaves that a
   * flush gets through, and no edit waiting behind a chain.
   */
  ghost predicate Steady(cfg: Config, n: Node, lo: Option<Key>, hi: Option<Key>) {
    && Ordered(n, lo, hi) && Parsed(n) && Counted(n) && ChainClear(n, lo, hi) && Stocked(cfg, n)
    && LeavesReady(cfg, n, lo, hi)
  }

  /** The state of a tree that can be flushed. */
  ghost predicate Sound(cfg: Config, n: Node, lo: Option<Key>, hi: Option<Key>) {
    Steady(cfg, n, lo, hi) && KeepsBranches(cfg, n)
  }

  lemma ChildInOrder(cfg: Config, n: Node, i: nat, lo: Option<Key>, hi: Option<Key>)
    requires n.Internal? && Ordered(n, lo, hi) && Parsed(n) && AllApplyOK(n.branches, n.queue) && i < |n.branches|
    ensures var cs := MaybeApply(cfg, n.branches, n.queue).0; var c := cs[i].child;
            && Lo(cs, i, lo) == Lo(n.branches, i, lo) && Hi(cs, i, hi) == Hi(n.branches, i, hi)
            && Ordered(c, Lo(cs, i, lo), Hi(cs, i, hi)) && Parsed(c) && Height(c) < Height(n)
  {
    hide AllApplyOK, ApplyBranch;
    var cs := MaybeApply(cfg, n.branches, n.queue).0;
    MaybeStep(cfg, n.branches, n.queue, lo, hi);
    MaybeParsed(cfg, n.branches, n.queue);
    MaybeHeight(cfg, n.branches, n.queue);
    MaxHeightBounds(cs, i);
    SameSeparators(cfg, n, i);
  }

  lemma SameSeparators(cfg: Config, n: Node, i: nat)
    requires n.Internal? && i < |n.branches|
    ensures var cs := MaybeApply(cfg, n.branches, n.queue).0;
            |cs| == |n.branches| && forall j :: 0 <= j < |cs| ==> cs[j].minKey == n.branches[j].minKey
  {
  }

  lemma ChildHonest(cfg: Config, n: Node, i: nat, lo: Option<Key>, hi: Option<Key>)
    requires n.Internal? && Ordered(n, lo, hi) && Counted(n) && ChainClear(n, lo, hi) && Trusty(n, lo, hi)
    requires i < |n.branches|
    ensures var c := MaybeApply(cfg, n.branches, n.queue).0[i].child;
            var l, h := Lo(n.branches, i, lo), Hi(n.branches, i, hi);
            Counted(c) && ChainClear(c, l, h) && Honest(c, l, h)
  {
    if n.branches[i].child.Internal? {
      ChildAfter(n, i, lo, hi);
      ChildBefore(n, i, lo, hi);
    }
  }

  /** Children the flush visits are sound and honest, once the node's queue has been looked at. */
  lemma ChildSound(cfg: Config, n: Node, i: nat, lo: Option<Key>, hi: Option<Key>)
    requires cfg.block >= 60 && n.Internal? && Steady(cfg, n, lo, hi) && Trusty(n, lo, hi) && i < |n.branches|
    ensures var cs := MaybeApply(cfg, n.branches, n.queue).0; var c := cs[i].child;
            var l, h := Lo(cs, i, lo), Hi(cs, i, hi);
            Steady(cfg, c, l, h) && Honest(c, l, h) && Height(c) < Height(n)
  {
    hide Ordered, Parsed, Counted, ChainClear, Stocked, Honest, Trusty, AllApplyOK, Height, ApplyBranch,
      ApplyBranches, Truthful, LeavesReady;
    BatchesOK(n, lo, hi);
    BatchOK(n, i);
    ClearReady(cfg, n, i, lo, hi);
    ChildInOrder(cfg, n, i, lo, hi);
    ChildHonest(cfg, n, i, lo, hi);
    AppliedStocked(cfg, n.branches, n.queue, i);
    ChildStocked(cfg, n, i);
  }

  lemma BatchOK(n: Node, i: nat)
    requires n.Internal? && AllApplyOK(n.branches, n.queue) && i < |n.branches|
    ensures ApplyOK(n.branches[i].child, Range(n.branches, n.queue, i))
  {
  }

  /** Where no edit waits behind a chain, the leaves stay ready. */
  lemma ClearReady(cfg: Config, n: Node, i: nat, lo: Option<Key>, hi: Option<Key>)
    requires n.Internal? && Ordered(n, lo, hi) && ChainClear(n, lo, hi) && LeavesReady(cfg, n, lo, hi)
    requires i < |n.branches|
    ensures LeavesReady(cfg, MaybeApply(cfg, n.branches, n.queue).0[i].child,
                        Lo(n.branches, i, lo), Hi(n.branches, i, hi))
  {
    hide LeavesReady, Pending, LeafFor, Ordered;
    var c, es := n.branches[i].child, Range(n.branches, n.queue, i);
    OrderedParts(n, lo, hi);
    RangeWithin(n.branches, n.queue, lo, hi, i);
    forall j | 0 <= j < |es|
      ensures ClearFor(c, es[j].key)
    {
      ChildPends(n, i, lo, hi, es[j].key);
      EditsOnSome(es, j);
      assert ClearAt(n, es[j].key);
    }
    ChildLeavesReady(cfg, n, i, lo, hi);
  }

  lemma ChildStocked(cfg: Config, n: Node, i: nat)
    requires n.Internal? && Stocked(cfg, n) && i < |n.branches|
    ensures Stocked(cfg, n.branches[i].child) && n == Internal(n.branches, n.queue)
  {
  }

  // ---------------------------------------------------------------- flushing a trusted tree

  lemma EmptyHollow(n: Node, lo: Option<Key>, hi: Option<Key>)
    requires Ordered(n, lo, hi) && Counted(n) && Honest(n, lo, hi) && ItemCount(n) == 0
    ensures Hollow(n, lo, hi)
  {
    ContentCount(n, lo, hi);
    forall k, c | Within(lo, hi, k) && Denotes(n, k, c)
      ensures c == multiset{}
    {
      ContentDenoted(n, lo, hi, k);
      assert HonestAt(n, k);
      StepsDelta(Pending(n, k), Held(n, k), c);
      StepsDelta(Pending(n, k), Held(n, k), Bag(Content(n), k));
    }
  }

  lemma LeafSum(cfg: Config, l: Leaves.Valid)
    requires cfg.block >= 60 && Stocked(cfg, Leaf(l)) && LeafReady(cfg, l)
    ensures LeafPasses(cfg, l)
    ensures BranchSum(Flush(cfg, Leaf(l))) == Leaves.Count(l)
  {
    ReadyPasses(cfg, l);
    PushedBag(cfg, l, 0);
    SplitLeafSum(cfg, PushedLeaf(cfg, l));
  }

  lemma DroppedSum(r: seq<Branch>)
    requires Dropped(r)
    ensures BranchSum(r) == 0
  {
    SumOne(r[0]);
    assert r == [r[0]];
  }

  /** A flushed child that is honest keeps its item count, and meets the conditions of the code. */
  lemma {:induction false} HonestFlush(cfg: Config, n: Node, lo: Option<Key>, hi: Option<Key>)
    requires cfg.block >= 60 && Sound(cfg, n, lo, hi) && Honest(n, lo, hi)
    ensures FlushOK(cfg, n, lo, hi)
    ensures BranchSum(Flush(cfg, n)) == ItemCount(n)
    decreases Height(n), 1
  {
    match n
    case Leaf(l) =>
      ReadyLeafIs(cfg, l, lo, hi);
      LeafSum(cfg, l);
    case Internal(bs, q) =>
      HonestTrusty(n, lo, hi);
      TrustedFlush(cfg, n, lo, hi);
      var (cs, p) := MaybeApply(cfg, bs, q);
      forall i | 0 <= i < |cs|
        ensures if cs[i].loaded then BranchSum(Flush(cfg, cs[i].child)) == ItemCount(cs[i].child)
                else cs[i].count == ItemCount(cs[i].child)
      {
        HonestChild(cfg, n, i, lo, hi);
      }
      FlushFromSum(cfg, cs, 0);
      assert cs[0..] == cs;
      ChildrenSum(cfg, n, lo, hi);
      SplitInternalSum(cfg, FlushFrom(cfg, cs, 0), p);
  }

  lemma {:induction false} HonestChild(cfg: Config, n: Node, i: nat, lo: Option<Key>, hi: Option<Key>)
    requires cfg.block >= 60 && n.Internal? && Sound(cfg, n, lo, hi) && Trusty(n, lo, hi) && i < |n.branches|
    ensures var cs := MaybeApply(cfg, n.branches, n.queue).0;
            if cs[i].loaded then
              && FlushOK(cfg, cs[i].child, Lo(cs, i, lo), Hi(cs, i, hi))
              && BranchSum(Flush(cfg, cs[i].child)) == ItemCount(cs[i].child)
            else cs[i].count == ItemCount(cs[i].child)
    decreases Height(n), 0, 0
  {
    var cs := MaybeApply(cfg, n.branches, n.queue).0;
    ChildSound(cfg, n, i, lo, hi);
    if cs[i].loaded {
      assert KeepsBelow(cfg, cs, i);
      HonestFlush(cfg, cs[i].child, Lo(cs, i, lo), Hi(cs, i, hi));
    } else {
      assert cs[i].child == n.branches[i].child;
    }
  }

  /** The items of the children, with what stays queued, are the items of the node. */
  lemma ChildrenSum(cfg: Config, n: Node, lo: Option<Key>, hi: Option<Key>)
    requires n.Internal? && Ordered(n, lo, hi) && Counted(n) && Honest(n, lo, hi) && ChainClear(n, lo, hi)
    ensures var (cs, p) := MaybeApply(cfg, n.branches, n.queue);
            TrueSum(cs) + GuaranteedDeltas(p) == ItemCount(n)
  {
    var bs, q := n.branches, n.queue;
    var (cs, p) := MaybeApply(cfg, bs, q);
    if QueueSize(cfg, q) > cfg.queue {
      forall j | 0 <= j < |bs|
        ensures ItemCount(cs[j].child) == bs[j].count + GuaranteedDeltas(Range(bs, q, j))
      {
        AppliedCount(n, j, lo, hi);
      }
      TrueSumFrom(bs, q, cs, 0);
      CountFromSums(bs, q, lo, hi, 0);
      assert cs[0..] == cs && bs[0..] == bs && q[0..] == q;
    } else {
      TrueSumCounted(bs);
    }
  }

  lemma {:induction false} TrustedChild(cfg: Config, n: Node, i: nat, lo: Option<Key>, hi: Option<Key>)
    requires cfg.block >= 60 && n.Internal? && Sound(cfg, n, lo, hi) && Trusty(n, lo, hi) && i < |n.branches|
    requires MaybeApply(cfg, n.branches, n.queue).0[i].loaded
    ensures ChildOK(cfg, MaybeApply(cfg, n.branches, n.queue).0, i, lo, hi)
    decreases Height(n), 0, 1
  {
    var cs := MaybeApply(cfg, n.branches, n.queue).0;
    var l, h := Lo(cs, i, lo), Hi(cs, i, hi);
    HonestChild(cfg, n, i, lo, hi);
    ChildSound(cfg, n, i, lo, hi);
    assert KeepsBelow(cfg, cs, i);
    var r := Flush(cfg, cs[i].child);
    if Dropped(r) {
      DroppedSum(r);
      EmptyHollow(cs[i].child, l, h);
    }
  }

  /** A sound tree whose guarantees can be trusted below its root meets the conditions of the code. */
  lemma {:induction false} TrustedFlush(cfg: Config, n: Node, lo: Option<Key>, hi: Option<Key>)
    requires cfg.block >= 60 && Sound(cfg, n, lo, hi) && Trusty(n, lo, hi)
    ensures FlushOK(cfg, n, lo, hi)
    decreases Height(n), 0, 2
  {
    match n
    case Leaf(l) =>
      ReadyLeafIs(cfg, l, lo, hi);
      LeafSum(cfg, l);
    case Internal(bs, q) =>
      BatchesOK(n, lo, hi);
      var cs := MaybeApply(cfg, bs, q).0;
      forall i | 0 <= i < |cs| && cs[i].loaded
        ensures ChildOK(cfg, cs, i, lo, hi)
      {
        TrustedChild(cfg, n, i, lo, hi);
      }
  }

  // ---------------------------------------------------------------- stored counts afterwards

  ghost predicate CountedList(r: seq<Branch>) {
    forall i :: 0 <= i < |r| ==> r[i].count == ItemCount(r[i].child) && Counted(r[i].child)
  }

  lemma {:induction false} SplitInternalCounted(cfg: Config, bs: seq<Branch>, q: seq<Edit>)
    requires CountedList(bs)
    ensures CountedList(SplitInternal(cfg, bs, q))
    decreases |bs|
  {
    if InternalSplits(cfg, bs) && |bs| > 1 {
      SplitTurn(cfg, bs, q);
      var c := Cut(q, bs[1].minKey);
      var rest := SplitInternal(cfg, bs[1..], q[c..]);
      SplitInternalCounted(cfg, bs[1..], q[c..]);
      assert CountedList(WithFirst(rest, bs[1].minKey));
    } else {
      Unsplit(cfg, bs, q);
    }
  }

  lemma UpdateCounted(b: Branch, r: seq<Branch>)
    requires |r| > 0 && CountedList(r)
    ensures CountedList(Update(b, r))
  {
    var u := Update(b, r);
    forall i | 0 <= i < |u|
      ensures u[i].count == ItemCount(u[i].child) && Counted(u[i].child)
    {
      if i > 0 { assert u[i] == r[1..][i - 1] == r[i]; }
    }
  }

  /** After a flush every stored count is the item count of the child it stands for. */
  lemma {:induction false} FlushCounted(cfg: Config, n: Node)
    requires Counted(n)
    ensures CountedList(Flush(cfg, n))
    decreases Height(n), 1, 0
  {
    match n
    case Leaf(l) =>
      SplitLeafCounted(cfg, PushedLeaf(cfg, l));
    case Internal(bs, q) =>
      var (cs, p) := MaybeApply(cfg, bs, q);
      MaybeHeight(cfg, bs, q);
      forall i | 0 <= i < |cs|
        ensures Counted(cs[i].child) && (!cs[i].loaded ==> cs[i].count == ItemCount(cs[i].child))
      {
        if bs[i].child.Internal? {
          MixCounted(bs[i].child, Range(bs, q, i));
        }
      }
      FlushFromCounted(cfg, cs, 0);
      SplitInternalCounted(cfg, FlushFrom(cfg, cs, 0), p);
  }

  lemma {:induction false} FlushFromCounted(cfg: Config, cs: seq<Branch>, i: nat)
    requires i <= |cs|
    requires forall j :: 0 <= j < |cs| ==>
               Counted(cs[j].child) && (!cs[j].loaded ==> cs[j].count == ItemCount(cs[j].child))
    ensures CountedList(FlushFrom(cfg, cs, i))
    decreases 1 + MaxHeight(cs), 0, |cs| - i
  {
    if i < |cs| {
      MaxHeightBounds(cs, i);
      FlushFromCounted(cfg, cs, i + 1);
      if cs[i].loaded {
        FlushCounted(cfg, cs[i].child);
        UpdateCounted(cs[i], Flush(cfg, cs[i].child));
      }
    }
  }

  /** Splitting nothing leaves one node, with the count of its queue. */
  lemma SplitNothing(cfg: Config, f: seq<Branch>, q: seq<Edit>)
    requires Branchless(SplitInternal(cfg, f, q))
    ensures f == []
    ensures SplitInternal(cfg, f, q)[0].count == GuaranteedDeltas(q)
  {
    var r := SplitInternal(cfg, f, q);
    SplitInternalConserves(cfg, f, q);
    SplitInternalSum(cfg, f, q);
    assert r == [r[0]] && r[1..] == [];
    SumOne(r[0]);
    assert PartBranches(r) == r[0].child.branches + PartBranches(r[1..]);
  }

  // ---------------------------------------------------------------- growing the root

  /** The loop of write(): new roots over a split, a number of tries at most; None is the exception thrown. */
  function Grow(cfg: Config, split: seq<Branch>, tries: nat): Option<Node>
    requires |split| > 0
    decreases tries
  {
    if |split| == 1 then Some(split[0].child)
    else if tries == 0 then None
    else Grow(cfg, SplitInternal(cfg, split, []), tries - 1)
  }

  function Write(cfg: Config, root: Node): Option<Node> {
    Grow(cfg, Flush(cfg, root), 4)
  }

  lemma SingleMeans(b: Branch, k: Key)
    ensures SameMeaning(AsNode([b]), b.child, k)
  {
    ListPends([b], k);
  }

  lemma {:induction false} GrowMeans(cfg: Config, split: seq<Branch>, tries: nat, n: Node)
    requires Flushed(n, split, None, None)
    requires Grow(cfg, split, tries).Some?
    ensures var t := Grow(cfg, split, tries).value; Ordered(t, None, None) && Refines(t, n, None, None)
    decreases tries
  {
    if |split| == 1 {
      var t := split[0].child;
      forall k, c | Within(None, None, k) && Denotes(t, k, c)
        ensures Denotes(n, k, c)
      {
        SingleMeans(split[0], k);
        assert split == [split[0]];
        assert Denotes(AsNode(split), k, c);
      }
    } else {
      SplitFlushed(cfg, split, [], n, None, None);
      GrowMeans(cfg, SplitInternal(cfg, split, []), tries - 1, n);
    }
  }

  lemma {:induction false} GrowCounted(cfg: Config, split: seq<Branch>, tries: nat)
    requires |split| > 0 && CountedList(split) && Grow(cfg, split, tries).Some?
    ensures Counted(Grow(cfg, split, tries).value)
    decreases tries
  {
    if |split| > 1 {
      SplitInternalCounted(cfg, split, []);
      GrowCounted(cfg, SplitInternal(cfg, split, []), tries - 1);
    }
  }

  /** The steps of the flush are in order, and the root keeps a branch. */
  ghost predicate Writable(cfg: Config, n: Node) {
    FlushOK(cfg, n, None, None) && !Branchless(Flush(cfg, n))
  }

  /**
   * write() keeps the meaning: the new tree is search-ordered and stands for
   * nothing the old tree did not stand for, whatever the flags and counts are.
   */
  lemma WriteMeans(cfg: Config, n: Node)
    requires Ordered(n, None, None) && Parsed(n) && Writable(cfg, n) && Write(cfg, n).Some?
    ensures var t := Write(cfg, n).value; Ordered(t, None, None) && Refines(t, n, None, None)
  {
    FlushMeans(cfg, n, None, None);
    GrowMeans(cfg, Flush(cfg, n), 4, n);
  }

  /**
   * If every stored count was that of its child, it is so after write(), under
   * whatever edits, where the code gets through the flush.
   */
  lemma WriteCounted(cfg: Config, n: Node)
    requires Counted(n) && Passable(cfg, n) && Write(cfg, n).Some?
    ensures Counted(Write(cfg, n).value)
  {
    FlushCounted(cfg, n);
    GrowCounted(cfg, Flush(cfg, n), 4);
  }

  /** For a key that never holds two values, the content after write() is exactly the content before. */
  lemma WriteSame(cfg: Config, n: Node, k: Key, c: Values)
    requires Ordered(n, None, None) && Parsed(n) && Writable(cfg, n) && Write(cfg, n).Some?
    requires SingleValued(Pending(n, k), Held(n, k))
    ensures Denotes(Write(cfg, n).value, k, c) <==> Denotes(n, k, c)
  {
    hide Writable, Ordered, Parsed, Write, Held, Pending;
    WriteMeans(cfg, n);
    var t := Write(cfg, n).value;
    var d := DenotesSome(t, k);
    assert Within(None, None, k) && Denotes(n, k, d);
    if Denotes(n, k, c) {
      StepsDeterministic(Pending(n, k), Held(n, k), c, d);
    }
  }
}
