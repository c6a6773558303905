/**
 * Trees that lose no node that still has edits waiting: it is enough that every
 * internal node has a branch that stores a positive count.
 */
module Liveliness {
  import opened Types
  import opened Multimap
  import opened Tree
  import opened Meaning
  import opened Counting
  import opened BranchLists
  import opened Splitting
  import opened Flushing
  import opened Trust
  import opened Writing

  /** Every internal node has a branch that stores a positive count. */
  ghost predicate Lively(n: Node) {
    n.Internal? ==>
      && (exists i :: 0 <= i < |n.branches| && n.branches[i].count > 0)
      && (forall i :: 0 <= i < |n.branches| ==> Lively(n.branches[i].child))
  }

  lemma {:induction false} MixBranches(n: Node, es: seq<Edit>)
    requires n.Internal? && AllGuaranteed(es)
    ensures var r := MixMany(n, es); r.Internal? && r.branches == n.branches
    decreases |es|
  {
    if |es| > 0 {
      MixBranches(Apply(n, es[0], false), es[1..]);
    }
  }

  /** Guaranteed edits are queued in internal children, whose branches stay as they are. */
  lemma AppliedLively(cfg: Config, n: Node, i: nat)
    requires n.Internal? && i < |n.branches| && Lively(n) && AllGuaranteed(n.queue)
    ensures Lively(MaybeApply(cfg, n.branches, n.queue).0[i].child)
  {
    var c, es := n.branches[i].child, Range(n.branches, n.queue, i);
    assert Lively(c);
    if c.Internal? {
      MixBranches(c, es);
    }
  }

  lemma {:induction false} FlushFromNone(cfg: Config, cs: seq<Branch>, k: nat, i: nat)
    requires k <= i < |cs| && FlushFrom(cfg, cs, k) == []
    ensures cs[i].loaded && Dropped(Flush(cfg, cs[i].child))
    decreases |cs| - k
  {
    hide Flush;
    if k < i {
      FlushFromNone(cfg, cs, k + 1, i);
    }
  }

  /** A branch that stores a positive count is not dropped while the queue waits. */
  lemma KeptWaiting(cfg: Config, n: Node, lo: Option<Key>, hi: Option<Key>)
    requires cfg.block >= 60 && n.Internal? && Sound(cfg, n, lo, hi) && Honest(n, lo, hi) && Lively(n)
    requires QueueSize(cfg, n.queue) <= cfg.queue
    ensures FlushFrom(cfg, n.branches, 0) != []
  {
    hide Sound, Honest, Flush, FlushFrom, QueueSize;
    var i :| 0 <= i < |n.branches| && n.branches[i].count > 0;
    HonestAsSound(cfg, n, lo, hi);
    if FlushFrom(cfg, n.branches, 0) == [] {
      FlushFromNone(cfg, n.branches, 0, i);
      HonestChild(cfg, n, i, lo, hi);
      DroppedSum(Flush(cfg, n.branches[i].child));
    }
  }

  lemma HonestAsSound(cfg: Config, n: Node, lo: Option<Key>, hi: Option<Key>)
    requires Sound(cfg, n, lo, hi) && Honest(n, lo, hi)
    ensures Ordered(n, lo, hi) && Counted(n) && Trusty(n, lo, hi)
  {
    HonestTrusty(n, lo, hi);
  }

  /** Such a node is left without branches only if no item is left in it, either. */
  lemma LeftEmpty(cfg: Config, n: Node, lo: Option<Key>, hi: Option<Key>)
    requires cfg.block >= 60 && Sound(cfg, n, lo, hi) && Honest(n, lo, hi) && Lively(n)
    ensures Branchless(Flush(cfg, n)) ==> Dropped(Flush(cfg, n)) && ItemCount(n) == 0
  {
    hide Sound, Honest, FlushFrom, QueueSize, SplitInternal;
    if Branchless(Flush(cfg, n)) {
      match n
      case Leaf(l) => SplitLeafCounted(cfg, PushedLeaf(cfg, l));
      case Internal(bs, q) =>
        var (cs, p) := MaybeApply(cfg, bs, q);
        SplitNothing(cfg, FlushFrom(cfg, cs, 0), p);
        if QueueSize(cfg, q) <= cfg.queue {
          KeptWaiting(cfg, n, lo, hi);
        }
        HonestFlush(cfg, n, lo, hi);
        DroppedSum(Flush(cfg, n));
    }
  }

  /** Along the flush no node is kept without branches. */
  lemma {:induction false} LivelyKeeps(cfg: Config, n: Node, lo: Option<Key>, hi: Option<Key>)
    requires cfg.block >= 60 && Steady(cfg, n, lo, hi) && Honest(n, lo, hi) && Lively(n)
    ensures KeepsBranches(cfg, n)
    decreases Height(n)
  {
    hide Steady, Honest, Flush;
    if n.Internal? {
      var cs := MaybeApply(cfg, n.branches, n.queue).0;
      MaybeHeight(cfg, n.branches, n.queue);
      forall i | 0 <= i < |cs| && cs[i].loaded
        ensures KeepsBelow(cfg, cs, i)
      {
        LivelyChild(cfg, n, i, lo, hi);
        var l, h := Lo(cs, i, lo), Hi(cs, i, hi);
        LivelyKeeps(cfg, cs[i].child, l, h);
        LeftEmpty(cfg, cs[i].child, l, h);
      }
    }
  }

  lemma LivelyChild(cfg: Config, n: Node, i: nat, lo: Option<Key>, hi: Option<Key>)
    requires cfg.block >= 60 && n.Internal? && Steady(cfg, n, lo, hi) && Honest(n, lo, hi) && Lively(n)
    requires i < |n.branches|
    ensures var cs := MaybeApply(cfg, n.branches, n.queue).0; var c := cs[i].child;
            Steady(cfg, c, Lo(cs, i, lo), Hi(cs, i, hi)) && Honest(c, Lo(cs, i, lo), Hi(cs, i, hi)) && Lively(c)
            && Height(c) < Height(n)
  {
    hide MaybeApply, Lively;
    HonestTrusty(n, lo, hi);
    HonestEdits(n, lo, hi);
    ChildSound(cfg, n, i, lo, hi);
    AppliedLively(cfg, n, i);
  }

  /**
   * Trees whose queued edits are all guaranteed, and truthfully so: right counts,
   * a positive stored count in every internal node, and an item in the tree are
   * enough. Children may well be emptied, and removed, on the way.
   */
  lemma LivelyWritable(cfg: Config, n: Node)
    requires cfg.block >= 60 && Steady(cfg, n, None, None) && Honest(n, None, None) && Lively(n) && ItemCount(n) != 0
    ensures Writable(cfg, n)
  {
    hide Steady, Honest, Lively, Flush, KeepsBranches;
    LivelyKeeps(cfg, n, None, None);
    LeftEmpty(cfg, n, None, None);
    HonestAsSound(cfg, n, None, None);
    TrustedFlush(cfg, n, None, None);
  }
}
