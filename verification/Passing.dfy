/**
 * Leaves that a flush gets through, and that stay so while it sends edits down:
 * a chain in memory can be pushed down without reading, and the pairs of its
 * key take no more than half a block.
 */
module Passing {
  import opened Types
  import opened Multimap
  import opened Tree
  import opened Meaning
  import opened Lookup
  import opened Merging
  import opened Splitting
  import opened Flushing
  import opened Trust
  import opened Pushing
  import ChainMerging
  import Limits
  import Leaves
  import Overflow

  predicate LeafReady(cfg: Config, l: Leaves.Valid) {
    l.chain.Node? ==>
      && (l.chain.loaded ==> Movable(cfg.block, l.chain))
      && RunSize(cfg, l.pairs, Last(l.pairs).key) <= cfg.block / 2
  }

  /** The leaf of every key is ready. */
  ghost predicate LeavesReady(cfg: Config, n: Node, lo: Option<Key>, hi: Option<Key>) {
    forall k :: Within(lo, hi, k) ==> LeafReady(cfg, LeafFor(n, k))
  }

  lemma ReadyLeafIs(cfg: Config, l: Leaves.Valid, lo: Option<Key>, hi: Option<Key>)
    requires Ordered(Leaf(l), lo, hi) && LeavesReady(cfg, Leaf(l), lo, hi)
    ensures LeafReady(cfg, l)
  {
    hide LeafReady;
    if l.chain.Node? {
      assert Within(lo, hi, Last(l.pairs).key) && LeafFor(Leaf(l), Last(l.pairs).key) == l;
    } else {
      NoChainReady(cfg, l);
    }
  }

  lemma NoChainReady(cfg: Config, l: Leaves.Valid)
    requires l.chain.End?
    ensures LeafReady(cfg, l)
  {
  }

  /** With values of at most half a block, the code gets through a ready leaf. */
  lemma ReadyPasses(cfg: Config, l: Leaves.Valid)
    requires cfg.block >= 60 && Stocked(cfg, Leaf(l)) && LeafReady(cfg, l)
    ensures LeafPasses(cfg, l)
  {
    hide Movable, RunSize, Leaves.LeafBag;
    StockedPairs(cfg, l);
    NewChainsEnd(cfg, l.pairs);
    PushedBag(cfg, l, 0);
    NeverStranded(cfg, PushedLeaf(cfg, l));
  }

  /**
   * With small values, the code gets through a leaf that is flushed if and only
   * if nothing is stored behind the nodes of its chain in memory, or their
   * values need no further page.
   */
  lemma LeafExact(cfg: Config, l: Leaves.Valid)
    requires cfg.block >= 60 && Stocked(cfg, Leaf(l))
    requires l.chain.Node? ==> RunSize(cfg, l.pairs, Last(l.pairs).key) <= cfg.block / 2
    ensures Passable(cfg, Leaf(l)) <==>
              (l.chain.Node? && l.chain.loaded ==>
                 || StoredBehind(l.chain).End?
                 || Nodes(PushDown(cfg.block, InMemory(l.chain))) == Nodes(InMemory(l.chain)))
  {
    hide Movable, RunSize, Leaves.LeafBag, PushDown, InMemory, Nodes, StoredBehind;
    StockedPairs(cfg, l);
    NewChainsEnd(cfg, l.pairs);
    PushedBag(cfg, l, 0);
    NeverStranded(cfg, PushedLeaf(cfg, l));
    if l.chain.Node? && l.chain.loaded {
      StockedChain(cfg, l);
      MovableExact(cfg.block, l.chain);
    }
  }

  /**
   * An insert into a tree that was opened again, and then write(): the node it
   * fills moves values into one that was not read.
   */
  lemma InsertCrashes(cfg: Config, k: Key, v: Value, g: bool)
    requires HEADER + LINK + |v| <= cfg.block < HEADER + LINK + 2 * |v| && HEADER + LINK + cfg.keySize(k) <= cfg.block
    ensures var n := Leaf(TwoStored(k, v)); var m := Apply(n, Edit(INSERT, k, v, g), false);
            && Ordered(n, None, None) && Parsed(n) && Passable(cfg, n)
            && Ordered(m, None, None) && Parsed(m) && !Passable(cfg, m)
  {
    hide Movable, Leaves.Keeps;
    PushCrashes(cfg.block, k, v, g);
    var l := TwoStored(k, v);
    ApplyOrdered(Leaf(l), Edit(INSERT, k, v, g), false, None, None);
    PairsSizeOne(cfg, Pair(k, []));
    assert LeafSize(cfg, l.pairs) == HEADER + LINK + cfg.keySize(k);
  }

  /** An insert merged in front of a chain does what it means, and leaves a leaf that cannot be split. */
  lemma MergeStrands(cfg: Config, k: Key, v: Value, w: Value, x: Value, g: bool)
    requires cfg.block > 0 && HEADER + LINK + 2 * cfg.keySize(k) + |v| + |x| > cfg.block
    ensures var l, e := Limits.Chained(k, v, w), Edit(INSERT, k, x, g);
            && MergeOK(l, [e]) && MergeLeaf(l, [e]).pairs == [Pair(k, x), Pair(k, v)]
            && !Passable(cfg, Leaf(MergeLeaf(l, [e])))
  {
    hide Limits.Clear, Limits.RawStep, ChainMerging.Fitting, NotStranded, Movable, ChainsEnd;
    var l, e := Limits.Chained(k, v, w), Edit(INSERT, k, x, g);
    var ps := [Pair(k, x), Pair(k, v)];
    Limits.MergeIs(l.pairs, [e]);
    Limits.Added([], l.pairs, e);
    assert LowerBound(l.pairs, k) == 0 && [] + l.pairs[..0] + [Pair(k, x)] + l.pairs[0..] == ps;
    OneEdit(l, e);
    assert SortedEdits([e]);
    FitsRuns(l, [e]);
    var r := MergeLeaf(l, [e]);
    assert r.pairs == ps && r.chain == l.chain;
    TwoPairs(cfg, k, v, x);
    PushedBag(cfg, r, k);
    PushDownKeeps(cfg.block, r.chain);
    Stranded(cfg, PushedLeaf(cfg, r));
  }

  lemma OneEdit(l: Leaves.Valid, e: Edit)
    requires l.chain.Node? && e.op == INSERT && e.key == Last(l.pairs).key
    ensures MergeOK(l, [e])
  {
    hide ChainMerging.Fitting, Overflow.Flat, EditsOn;
    assert Limits.Clear(l, e) && !Limits.Takes(l.pairs, e);
    ChainMerging.ClearFits(l, [e]);
  }

  lemma TwoPairs(cfg: Config, k: Key, v: Value, x: Value)
    ensures RunSize(cfg, [Pair(k, x), Pair(k, v)], k) == 2 * cfg.keySize(k) + |v| + |x|
  {
    RunSizeConcat(cfg, [Pair(k, x)], [Pair(k, v)], k);
    RunSizeBounds(cfg, [Pair(k, x)], k);
    RunSizeBounds(cfg, [Pair(k, v)], k);
    PairsSizeOne(cfg, Pair(k, x));
    PairsSizeOne(cfg, Pair(k, v));
    assert [Pair(k, x)] + [Pair(k, v)] == [Pair(k, x), Pair(k, v)];
  }

  // ---------------------------------------------------------------- edits below the chain

  lemma RunSizeInsert(cfg: Config, ps: seq<Pair>, i: nat, p: Pair, z: Key)
    requires i <= |ps| && p.key != z
    ensures RunSize(cfg, ps[..i] + [p] + ps[i..], z) == RunSize(cfg, ps, z)
  {
    assert ps == ps[..i] + ps[i..] && [p][1..] == [];
    RunSizeConcat(cfg, ps[..i], ps[i..], z);
    RunSizeConcat(cfg, ps[..i] + [p], ps[i..], z);
    RunSizeConcat(cfg, ps[..i], [p], z);
  }

  lemma RunSizeErase(cfg: Config, ps: seq<Pair>, i: nat, z: Key)
    requires i < |ps| && ps[i].key != z
    ensures RunSize(cfg, ps[..i] + ps[i + 1..], z) == RunSize(cfg, ps, z)
  {
    var rs := ps[..i] + ps[i + 1..];
    RunSizeInsert(cfg, rs, i, ps[i], z);
    assert rs[..i] + [ps[i]] + rs[i..] == ps;
  }

  lemma RunSizeUpdate(cfg: Config, ps: seq<Pair>, i: nat, p: Pair, z: Key)
    requires i < |ps| && ps[i].key != z && p.key != z
    ensures RunSize(cfg, ps[i := p], z) == RunSize(cfg, ps, z)
  {
    RunSizeErase(cfg, ps, i, z);
    RunSizeErase(cfg, ps[i := p], i, z);
    assert ps[i := p][..i] == ps[..i] && ps[i := p][i + 1..] == ps[i + 1..];
  }

  /** An edit below the chain leaves the chain and the pairs of its key alone, or brings the chain in. */
  lemma EditedBelow(cfg: Config, l: Leaves.Valid, e: Edit)
    requires l.chain.Node? && e.key < Last(l.pairs).key
    ensures var r := Leaves.Edited(l, e);
            r.chain.Node? ==>
              && r.chain == l.chain && Last(r.pairs) == Last(l.pairs)
              && RunSize(cfg, r.pairs, Last(l.pairs).key) == RunSize(cfg, l.pairs, Last(l.pairs).key)
  {
    hide RunSize, Leaves.Keeps, Overflow.Valid, Leaves.PullAll;
    Leaves.FindFinds(l.pairs, e.key);
    if e.op == INSERT || e.op == UPSERT {
      InsertedBelow(cfg, l, e);
    } else {
      RemovedBelow(cfg, l, e);
    }
  }

  lemma InsertedBelow(cfg: Config, l: Leaves.Valid, e: Edit)
    requires l.chain.Node? && e.key < Last(l.pairs).key && (e.op == INSERT || e.op == UPSERT)
    ensures var r := Leaves.Edited(l, e);
            r.chain.Node? ==>
              && r.chain == l.chain && Last(r.pairs) == Last(l.pairs)
              && RunSize(cfg, r.pairs, Last(l.pairs).key) == RunSize(cfg, l.pairs, Last(l.pairs).key)
  {
    hide RunSize, Leaves.Keeps, Overflow.Valid, Leaves.PullAll, UpperBound, LowerBound;
    var ps, z, p := l.pairs, Last(l.pairs).key, Pair(e.key, e.value);
    var i := Leaves.Find(ps, e.key);
    Leaves.FindFinds(ps, e.key);
    if i < |ps| {
      if e.op == UPSERT {
        RunSizeUpdate(cfg, ps, i, Pair(ps[i].key, e.value), z);
      } else {
        RunSizeInsert(cfg, ps, UpperBound(ps, e.key), p, z);
        Leaves.InsertPairSorted(ps, p);
      }
    }
  }

  lemma RemovedBelow(cfg: Config, l: Leaves.Valid, e: Edit)
    requires l.chain.Node? && e.key < Last(l.pairs).key && (e.op == REMOVE_KEY || e.op == REMOVE_KV)
    ensures var r := Leaves.Edited(l, e);
            && r.chain == l.chain && |r.pairs| > 0 && Last(r.pairs) == Last(l.pairs)
            && RunSize(cfg, r.pairs, Last(l.pairs).key) == RunSize(cfg, l.pairs, Last(l.pairs).key)
  {
    hide RunSize, Leaves.Keeps, Overflow.Valid, Leaves.FirstMatch;
    var ps, z := l.pairs, Last(l.pairs).key;
    var v := if e.op == REMOVE_KEY then None else Some(e.value);
    var i := Leaves.FirstMatch(ps, e.key, v, 0);
    if i < |ps| {
      RunSizeErase(cfg, ps, i, z);
    }
  }

  lemma EditedReady(cfg: Config, l: Leaves.Valid, e: Edit)
    requires LeafReady(cfg, l) && (l.chain.Node? ==> e.key < Last(l.pairs).key)
    ensures LeafReady(cfg, Leaves.Edited(l, e))
  {
    hide Movable, RunSize;
    var r := Leaves.Edited(l, e);
    if l.chain.Node? {
      EditedBelow(cfg, l, e);
    } else {
      assert r.chain.End?;
    }
  }

  lemma {:induction false} MergedRun(cfg: Config, u: seq<Pair>, c: seq<Pair>, es: seq<Edit>, z: Key)
    requires forall i :: 0 <= i < |es| ==> es[i].key != z
    ensures RunSize(cfg, MergeFrom(u, c, es), z) == RunSize(cfg, u, z) + RunSize(cfg, c, z)
    decreases |c| + |es|
  {
    hide Modify, PairSize;
    if Modifies(c, es) {
      ModifiedRun(cfg, u, es[0], z);
      MergedRun(cfg, Modify(u, es[0]), c, es[1..], z);
    } else if Inserts(c, es) {
      var p := Pair(es[0].key, es[0].value);
      RunSizeConcat(cfg, u, [p], z);
      assert [p][1..] == [];
      MergedRun(cfg, u + [p], c, es[1..], z);
    } else if |c| > 0 {
      RunSizeConcat(cfg, u, [c[0]], z);
      assert [c[0]][1..] == [];
      MergedRun(cfg, u + [c[0]], c[1..], es, z);
    }
  }

  lemma ModifiedRun(cfg: Config, u: seq<Pair>, e: Edit, z: Key)
    requires e.key != z
    ensures RunSize(cfg, Modify(u, e), z) == RunSize(cfg, u, z)
  {
    hide LastHit, RunSize;
    var i := LastHit(u, e, |u|);
    if i >= 0 {
      if e.op == UPSERT {
        RunSizeUpdate(cfg, u, i, Pair(u[i].key, e.value), z);
      } else {
        RunSizeErase(cfg, u, i, z);
      }
    } else if e.op == UPSERT {
      RunSizeInsert(cfg, u, |u|, Pair(e.key, e.value), z);
      assert u[..|u|] + [Pair(e.key, e.value)] + u[|u|..] == u + [Pair(e.key, e.value)];
    }
  }

  lemma MergedReady(cfg: Config, l: Leaves.Valid, es: seq<Edit>)
    requires LeafReady(cfg, l) && SortedEdits(es) && BelowChain(l, es)
    ensures LeafReady(cfg, MergeLeaf(l, es))
  {
    hide Movable, RunSize;
    if l.chain.Node? {
      MergeFromLast([], l.pairs, es);
      MergedRun(cfg, [], l.pairs, es, Last(l.pairs).key);
      NoRun(cfg, Last(l.pairs).key);
    }
  }

  lemma NoRun(cfg: Config, z: Key)
    ensures RunSize(cfg, [], z) == 0
  {
  }

  // ---------------------------------------------------------------- trees

  /** The key is below the chain of its leaf. */
  predicate ClearFor(n: Node, k: Key) {
    LeafFor(n, k).chain.Node? ==> k < Last(LeafFor(n, k).pairs).key
  }

  lemma {:induction false} ApplyReady(cfg: Config, n: Node, e: Edit, deep: bool, k: Key,
                                      lo: Option<Key>, hi: Option<Key>)
    requires Ordered(n, lo, hi) && LeafReady(cfg, LeafFor(n, k))
    requires n.Leaf? || deep ==> ClearFor(n, e.key)
    ensures LeafReady(cfg, LeafFor(Apply(n, e, deep), k))
    decreases n
  {
    hide LeafReady;
    match n
    case Leaf(l) => EditedReady(cfg, l, e);
    case Internal(bs, q) =>
      if deep {
        var i := Route(bs, e.key);
        RouteSame(bs, SetChild(bs, i, Apply(bs[i].child, e, deep)), k);
        if Route(bs, k) == i {
          ApplyReady(cfg, bs[i].child, e, deep, k, Lo(bs, i, lo), Hi(bs, i, hi));
        }
      }
  }

  lemma {:induction false} MixReady(cfg: Config, n: Node, es: seq<Edit>, k: Key, lo: Option<Key>, hi: Option<Key>)
    requires n.Internal? && Ordered(n, lo, hi) && EditsWithin(es, lo, hi) && LeafReady(cfg, LeafFor(n, k))
    requires forall i :: 0 <= i < |es| ==> ClearFor(n, es[i].key)
    ensures LeafReady(cfg, LeafFor(MixMany(n, es), k))
    decreases |es|
  {
    hide LeafReady, Ordered, LeafFor, Apply;
    if |es| > 0 {
      var e := es[0];
      var m := Apply(n, e, !e.guaranteed);
      ApplyReady(cfg, n, e, !e.guaranteed, k, lo, hi);
      ApplyOrdered(n, e, !e.guaranteed, lo, hi);
      ApplyInner(n, e, !e.guaranteed);
      forall i | 0 <= i < |es[1..]|
        ensures ClearFor(m, es[1..][i].key)
      {
        assert es[1..][i] == es[i + 1] && ClearFor(n, es[i + 1].key);
        ApplyChain(n, e, !e.guaranteed, es[i + 1].key, lo, hi);
      }
      MixReady(cfg, m, es[1..], k, lo, hi);
    }
  }

  lemma ApplyInner(n: Node, e: Edit, deep: bool)
    requires n.Internal?
    ensures Apply(n, e, deep).Internal?
  {
  }

  /** The children, once the queue has been looked at, have ready leaves if no edit for them is behind a chain. */
  lemma ChildLeavesReady(cfg: Config, n: Node, i: nat, lo: Option<Key>, hi: Option<Key>)
    requires n.Internal? && Ordered(n, lo, hi) && LeavesReady(cfg, n, lo, hi) && i < |n.branches|
    requires var es := Range(n.branches, n.queue, i);
             QueueSize(cfg, n.queue) > cfg.queue ==>
               forall j :: 0 <= j < |es| ==> ClearFor(n.branches[i].child, es[j].key)
    ensures LeavesReady(cfg, MaybeApply(cfg, n.branches, n.queue).0[i].child,
                        Lo(n.branches, i, lo), Hi(n.branches, i, hi))
  {
    hide LeafReady, QueueSize;
    var bs, es := n.branches, Range(n.branches, n.queue, i);
    var c, l, h := bs[i].child, Lo(bs, i, lo), Hi(bs, i, hi);
    RangeWithin(bs, n.queue, lo, hi, i);
    RangeSorted(bs, n.queue, i);
    forall k | Within(l, h, k)
      ensures LeafReady(cfg, LeafFor(MaybeApply(cfg, bs, n.queue).0[i].child, k))
    {
      ChildPends(n, i, lo, hi, k);
      assert LeafReady(cfg, LeafFor(n, k));
      if QueueSize(cfg, n.queue) > cfg.queue && |es| > 0 {
        match c
        case Leaf(x) => MergedReady(cfg, x, es);
        case Internal(_, _) => MixReady(cfg, c, es, k, l, h);
      }
    }
  }
}
