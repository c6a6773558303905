/** The page bound: what write() leaves in memory fits the blocks it is written to. */
module Paging {
  import opened Types
  import opened Tree
  import opened Meaning
  import opened BranchLists
  import opened Splitting
  import opened Flushing
  import opened Trust
  import opened Writing
  import Leaves
  import Overflow

  /** Every node in memory, and every overflow node, serializes to at most a block, queues included. */
  ghost predicate PagesFit(cfg: Config, n: Node) {
    match n
    case Leaf(l) => LeafFits(cfg, l)
    case Internal(bs, q) =>
      && InternalPage(cfg, bs, q) <= cfg.block
      && forall i :: 0 <= i < |bs| && bs[i].loaded ==> PagesFit(cfg, bs[i].child)
  }

  ghost predicate ListFits(cfg: Config, bs: seq<Branch>) {
    forall i :: 0 <= i < |bs| && bs[i].loaded ==> PagesFit(cfg, bs[i].child)
  }

  /** A block has room for two pairs, and beside the queue area for one branch. */
  predicate Roomy(cfg: Config) {
    cfg.block >= 60 && cfg.queue + 34 <= cfg.block
  }

  /** The branches are dealt out to the parts of a split. */
  lemma {:induction false} PartsHold(cfg: Config, bs: seq<Branch>, q: seq<Edit>)
    requires ListFits(cfg, bs)
    ensures forall j :: 0 <= j < |SplitInternal(cfg, bs, q)| ==>
              var n := SplitInternal(cfg, bs, q)[j].child; n.Internal? && ListFits(cfg, n.branches)
    decreases |bs|
  {
    hide PagesFit, ItemCount;
    if InternalSplits(cfg, bs) && |bs| > 1 {
      SplitTurn(cfg, bs, q);
      PartsHold(cfg, bs[1..], q[Cut(q, bs[1].minKey)..]);
    } else {
      Unsplit(cfg, bs, q);
    }
  }

  /** Every part of a split internal node fits, with its share of the queue. */
  lemma SplitFits(cfg: Config, bs: seq<Branch>, q: seq<Edit>)
    requires Roomy(cfg) && ListFits(cfg, bs) && QueueSize(cfg, q) <= cfg.queue
    ensures ListFits(cfg, SplitInternal(cfg, bs, q))
  {
    hide SplitInternal, InternalPage, QueueSize;
    PartsHold(cfg, bs, q);
    SplitInternalFits(cfg, bs, q);
  }

  lemma PushedFits(cfg: Config, l: Leaves.Valid)
    requires Roomy(cfg) && LeafFed(cfg, l)
    ensures ChainFits(cfg.block, PushedLeaf(cfg, l).chain)
  {
    if l.chain.Node? && l.chain.loaded {
      PushDownFits(cfg.block, l.chain);
    }
  }

  lemma LeafFlushFits(cfg: Config, l: Leaves.Valid)
    requires Roomy(cfg) && LeafFed(cfg, l)
    ensures ListFits(cfg, Flush(cfg, Leaf(l)))
  {
    hide SplitLeaf, LeafFits, ChainFits;
    PushedBag(cfg, l, 0);
    PushedFits(cfg, l);
    SplitLeafFits(cfg, PushedLeaf(cfg, l));
  }

  lemma UpdateFits(cfg: Config, b: Branch, r: seq<Branch>)
    requires |r| > 0 && ListFits(cfg, r) && r[0].loaded
    ensures ListFits(cfg, Update(b, r))
  {
    hide PagesFit;
    var u := Update(b, r);
    forall i | 0 <= i < |u| && u[i].loaded
      ensures PagesFit(cfg, u[i].child)
    {
      if i > 0 { assert u[i] == r[1..][i - 1] == r[i]; }
    }
  }

  lemma SplitInternalLoaded(cfg: Config, bs: seq<Branch>, q: seq<Edit>)
    ensures SplitInternal(cfg, bs, q)[0].loaded
  {
    SplitIndexIsOne(cfg, bs);
  }

  lemma FlushLoaded(cfg: Config, n: Node)
    ensures Flush(cfg, n)[0].loaded
  {
    match n
    case Leaf(l) => SplitLeafCounted(cfg, PushedLeaf(cfg, l));
    case Internal(bs, q) =>
      var (cs, p) := MaybeApply(cfg, bs, q);
      SplitInternalLoaded(cfg, FlushFrom(cfg, cs, 0), p);
  }

  /** Flushing leaves every node it visits within the block size. */
  lemma {:induction false} FlushFits(cfg: Config, n: Node)
    requires Roomy(cfg) && Fed(cfg, n)
    ensures ListFits(cfg, Flush(cfg, n))
    decreases Height(n), 1, 0
  {
    match n
    case Leaf(l) => LeafFlushFits(cfg, l);
    case Internal(bs, q) =>
      var (cs, p) := MaybeApply(cfg, bs, q);
      MaybeHeight(cfg, bs, q);
      forall i | 0 <= i < |cs|
        ensures Fed(cfg, cs[i].child)
      {
        AppliedFed(cfg, bs, q, i);
        StockedFed(cfg, bs[i].child);
      }
      FlushFromFits(cfg, cs, 0);
      SplitFits(cfg, FlushFrom(cfg, cs, 0), p);
  }

  lemma {:induction false} FlushFromFits(cfg: Config, cs: seq<Branch>, i: nat)
    requires Roomy(cfg) && i <= |cs|
    requires forall j :: 0 <= j < |cs| ==> Fed(cfg, cs[j].child)
    ensures ListFits(cfg, FlushFrom(cfg, cs, i))
    decreases 1 + MaxHeight(cs), 0, |cs| - i
  {
    hide PagesFit, Fed, Flush, Update;
    if i < |cs| {
      MaxHeightBounds(cs, i);
      FlushFromFits(cfg, cs, i + 1);
      if cs[i].loaded {
        FlushFits(cfg, cs[i].child);
        FlushLoaded(cfg, cs[i].child);
        UpdateFits(cfg, cs[i], Flush(cfg, cs[i].child));
      }
    }
  }

  lemma {:induction false} GrowFits(cfg: Config, split: seq<Branch>, tries: nat)
    requires Roomy(cfg) && |split| > 0 && split[0].loaded && ListFits(cfg, split) && Grow(cfg, split, tries).Some?
    ensures PagesFit(cfg, Grow(cfg, split, tries).value)
    decreases tries
  {
    hide PagesFit;
    if |split| > 1 {
      SplitFits(cfg, split, []);
      SplitInternalLoaded(cfg, split, []);
      GrowFits(cfg, SplitInternal(cfg, split, []), tries - 1);
    }
  }

  /**
   * Page bound: with pairs of at most half a block and room for a branch
   * beside the queue area, every page write() puts is within the block size,
   * whatever edits are queued, where the code gets through the flush.
   */
  lemma WriteFits(cfg: Config, n: Node)
    requires Roomy(cfg) && Stocked(cfg, n) && Passable(cfg, n) && Write(cfg, n).Some?
    ensures PagesFit(cfg, Write(cfg, n).value)
  {
    StockedFed(cfg, n);
    FlushFits(cfg, n);
    FlushLoaded(cfg, n);
    GrowFits(cfg, Flush(cfg, n), 4);
  }
}
