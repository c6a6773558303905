/**
 * Branches that look empty: a child whose item count is zero is removed, with
 * whatever edits still wait in it.  When that loses nothing, and when it does.
 */
module Dropping {
  import opened Types
  import opened Multimap
  import opened Reaching
  import opened Tree
  import opened Meaning
  import opened Counting
  import opened BranchLists
  import opened Splitting
  import opened Flushing
  import opened Writing
  import Leaves
  import Overflow

  // ---------------------------------------------------------------- nodes that stand for nothing

  /** The keys that a node holds or has edits of. */
  function KeysOf(n: Node): set<Key>
    decreases n
  {
    match n
    case Leaf(l) => set i | 0 <= i < |l.pairs| :: l.pairs[i].key
    case Internal(bs, q) =>
      (set j | 0 <= j < |q| :: q[j].key) + (set i, k | 0 <= i < |bs| && k in KeysOf(bs[i].child) :: k)
  }

  lemma {:induction false} KeysNone(n: Node, k: Key)
    requires k !in KeysOf(n)
    ensures Pending(n, k) == [] && Held(n, k) == multiset{}
    decreases n
  {
    match n
    case Leaf(l) => BagEmpty(l.pairs, k);
    case Internal(bs, q) =>
      EditsOnNone(q, k);
      if |bs| > 0 {
        var i := Route(bs, k);
        assert k !in KeysOf(bs[i].child);
        KeysNone(bs[i].child, k);
      } else {
        assert LeafFor(n, k).pairs == [];
      }
  }

  /** For every key of the node, all runs of its pending edits on its values end with nothing. */
  predicate Spent(n: Node) {
    forall k :: k in KeysOf(n) ==> Outcomes(Pending(n, k), {Held(n, k)}) <= {multiset{}}
  }

  /** What can be computed from values and queues decides whether a node stands for nothing. */
  lemma HollowExact(n: Node, lo: Option<Key>, hi: Option<Key>)
    requires Ordered(n, lo, hi)
    ensures Hollow(n, lo, hi) <==> Spent(n)
  {
    hide Pending, Held, Outcomes, Ordered, KeysOf;
    forall k, c
      ensures c in Outcomes(Pending(n, k), {Held(n, k)}) <==> Denotes(n, k, c)
    {
      OutcomesAre(Pending(n, k), {Held(n, k)}, c);
    }
    if Hollow(n, lo, hi) {
      forall k, c | k in KeysOf(n) && c in Outcomes(Pending(n, k), {Held(n, k)})
        ensures c == multiset{}
      {
        if !Within(lo, hi, k) {
          OutsideMeans(n, lo, hi, k);
          NothingRuns(c);
        }
      }
    }
    if Spent(n) {
      forall k, c | Within(lo, hi, k) && Denotes(n, k, c)
        ensures c == multiset{}
      {
        if k !in KeysOf(n) {
          KeysNone(n, k);
          NothingRuns(c);
        }
      }
    }
  }

  lemma NothingRuns(c: Values)
    ensures Steps([], multiset{}, c) <==> c == multiset{}
  {
  }

  /**
   * Removing the branch of a child that was flushed to a count of zero leaves a
   * list that stands for what the branch stood for if and only if the child was
   * spent.
   */
  lemma DropExact(cfg: Config, bs: seq<Branch>, i: nat, lo: Option<Key>, hi: Option<Key>)
    requires OrderedList(bs, lo, hi) && i < |bs| && Dropped(Flush(cfg, bs[i].child))
    ensures Update(bs[i], Flush(cfg, bs[i].child)) == []
    ensures SegmentOf([], bs, i, lo, hi) <==> Spent(bs[i].child)
  {
    hide Flush, Spent, OrderedList;
    var l, h := Lo(bs, i, lo), Hi(bs, i, hi);
    ListChild(bs, i, lo, hi);
    HollowExact(bs[i].child, l, h);
    forall k, c | Within(l, h, k)
      ensures Denotes(AsNode(bs), k, c) <==> Denotes(bs[i].child, k, c)
    {
      RoutedMeans(bs, i, lo, hi, k, c);
    }
  }

  lemma ListChild(bs: seq<Branch>, i: nat, lo: Option<Key>, hi: Option<Key>)
    requires OrderedList(bs, lo, hi) && i < |bs|
    ensures Ordered(bs[i].child, Lo(bs, i, lo), Hi(bs, i, hi))
  {
  }

  /** With nothing below in memory and a queue that fits, the count that decides is the item count. */
  lemma DroppedCounts(cfg: Config, n: Node)
    requires n.Internal? && QueueSize(cfg, n.queue) <= cfg.queue && !InternalSplits(cfg, n.branches)
    requires forall i :: 0 <= i < |n.branches| ==> !n.branches[i].loaded
    ensures Dropped(Flush(cfg, n)) <==> ItemCount(n) == 0
  {
    UnreadFrom(cfg, n.branches, 0);
    assert n.branches[0..] == n.branches;
    Unsplit(cfg, n.branches, n.queue);
  }

  lemma {:induction false} UnreadFrom(cfg: Config, bs: seq<Branch>, i: nat)
    requires i <= |bs| && forall j :: 0 <= j < |bs| ==> !bs[j].loaded
    ensures FlushFrom(cfg, bs, i) == bs[i..]
    decreases |bs| - i
  {
    if i < |bs| {
      UnreadFrom(cfg, bs, i + 1);
    }
  }

  // ---------------------------------------------------------------- two trees that lose a value

  /** One inner node, with no item counted and one insert queued that is not guaranteed. */
  function Overlooked(k: Key, v: Value): Node {
    Internal([Branch(None, 0, 0, false, Leaf(Leaves.LeafData([], Overflow.End)))], [Edit(INSERT, k, v, false)])
  }

  lemma OverlookedFlush(cfg: Config, k: Key, v: Value)
    requires cfg.queue + 34 <= cfg.block && 1 + cfg.keySize(k) + |v| <= cfg.queue
    ensures Dropped(Flush(cfg, Overlooked(k, v)))
  {
    var n := Overlooked(k, v);
    assert n.queue[1..] == [] && n.branches[1..] == [];
    assert QueueSize(cfg, n.queue) == 1 + cfg.keySize(k) + |v|;
    assert FlushFrom(cfg, n.branches, 1) == [];
    assert FlushFrom(cfg, n.branches, 0) == [n.branches[0]] + [] == n.branches;
    Unsplit(cfg, n.branches, n.queue);
    assert BranchSum(n.branches) == 0 && GuaranteedDeltas(n.queue) == 0;
  }

  lemma OverlookedMeans(k: Key, v: Value)
    ensures Denotes(Overlooked(k, v), k, multiset{v}) && !Hollow(Overlooked(k, v), None, None)
  {
    hide Bag, Route, Step;
    var n := Overlooked(k, v);
    var e := n.queue[0];
    EditsOnOne(e, k);
    RouteOnly(n.branches, k);
    assert Pending(n, k) == [] + [e] == [e];
    EmptyLeaf(k);
    assert Held(n.branches[0].child, k) == multiset{};
    InsertsOne(e);
    StepsOne(e, multiset{}, multiset{v});
    assert Denotes(n, k, multiset{v}) && Within(None, None, k);
    assert v in multiset{v};
  }

  lemma InsertsOne(e: Edit)
    requires e.op == INSERT
    ensures Step(e, multiset{}, multiset{e.value})
  {
  }

  lemma EmptyLeaf(k: Key)
    ensures Leaves.LeafBag(Leaves.LeafData([], Overflow.End), k) == multiset{}
  {
  }

  lemma RouteOnly(bs: seq<Branch>, k: Key)
    requires |bs| == 1
    ensures Route(bs, k) == 0
  {
  }

  /** The flush drops it, with the value: only guaranteed edits are counted. */
  lemma DropLoses(cfg: Config, k: Key, v: Value)
    requires cfg.queue + 34 <= cfg.block && 1 + cfg.keySize(k) + |v| <= cfg.queue
    ensures var n := Overlooked(k, v);
            && Ordered(n, None, None)
            && Dropped(Flush(cfg, n))
            && Denotes(n, k, multiset{v}) && !Hollow(n, None, None)
  {
    hide Flush, Hollow, Denotes;
    OverlookedFlush(cfg, k, v);
    OverlookedMeans(k, v);
  }

  /** One pair, for which a guaranteed removal and then an insert that is not guaranteed are queued. */
  function Replaced(k: Key, v: Value, w: Value): Node {
    Internal([Branch(None, 1, 0, false, Leaf(Leaves.LeafData([Pair(k, v)], Overflow.End)))],
             [Edit(REMOVE_KEY, k, [], true), Edit(INSERT, k, w, false)])
  }

  lemma ReplacedCounts(k: Key, v: Value, w: Value)
    ensures var n := Replaced(k, v, w); Ordered(n, None, None) && Counted(n) && ItemCount(n) == 0
  {
    var n := Replaced(k, v, w);
    var q := n.queue;
    assert q == [q[0]] + [q[1]] && n.branches[1..] == [];
    GuaranteedConcat([q[0]], [q[1]]);
    GuaranteedOne(q[0]);
    GuaranteedOne(q[1]);
    assert BranchSum(n.branches) == 1;
    var l := n.branches[0].child.leaf;
    assert forall i :: 0 <= i < |l.pairs| ==> Within(None, None, l.pairs[i].key);
    assert Separators(n.branches, None, None);
    assert ItemCount(n.branches[0].child) == 1;
  }

  lemma ReplacedFlush(cfg: Config, k: Key, v: Value, w: Value)
    requires 2 + 2 * cfg.keySize(k) + |w| <= cfg.queue && cfg.queue + 34 <= cfg.block
    ensures Dropped(Flush(cfg, Replaced(k, v, w)))
  {
    var n := Replaced(k, v, w);
    var q := n.queue;
    assert q[1..] == [q[1]] && [q[1]][1..] == [] && n.branches[1..] == [];
    assert QueueSize(cfg, []) == 0 && QueueSize(cfg, [q[1]]) == 1 + cfg.keySize(k) + |w|;
    assert QueueSize(cfg, q) == 2 + 2 * cfg.keySize(k) + |w|;
    assert BranchesSize(cfg, n.branches, 0) == BRANCH + BranchesSize(cfg, n.branches, 1);
    ReplacedCounts(k, v, w);
    DroppedCounts(cfg, n);
  }

  lemma ReplacedMeans(k: Key, v: Value, w: Value)
    ensures Denotes(Replaced(k, v, w), k, multiset{w}) && !Hollow(Replaced(k, v, w), None, None)
  {
    hide Bag, Route, Step, Steps, Held, EditsOn;
    var n := Replaced(k, v, w);
    ReplacedPends(k, v, w);
    RemovesOnly(n.queue[0], v);
    InsertsOne(n.queue[1]);
    StepsOne(n.queue[1], multiset{}, multiset{w});
    assert n.queue[1..] == [n.queue[1]];
    StepsCons(n.queue, multiset{v}, multiset{}, multiset{w});
    assert Within(None, None, k) && w in multiset{w};
  }

  lemma ReplacedPends(k: Key, v: Value, w: Value)
    ensures Pending(Replaced(k, v, w), k) == Replaced(k, v, w).queue
    ensures Held(Replaced(k, v, w), k) == multiset{v}
  {
    hide Bag, Route;
    var n := Replaced(k, v, w);
    var q := n.queue;
    assert q[1..] == [q[1]] && EditsOn([q[1]], k) == [q[1]] by { EditsOnOne(q[1], k); }
    assert EditsOn(q, k) == [q[0]] + [q[1]] == q;
    RouteOnly(n.branches, k);
    assert Pending(n, k) == [] + q == q;
    OneHeld(k, v);
    assert Held(n.branches[0].child, k) == multiset{v};
  }

  lemma OneHeld(k: Key, v: Value)
    ensures Leaves.LeafBag(Leaves.LeafData([Pair(k, v)], Overflow.End), k) == multiset{v}
  {
    BagOfOne(Pair(k, v), k);
  }

  lemma RemovesOnly(e: Edit, v: Value)
    requires e.op == REMOVE_KEY
    ensures Step(e, multiset{v}, multiset{})
  {
    assert v in multiset{v} && multiset{v} - multiset{v} == multiset{};
  }

  /** The counts are right and add up to zero, and the flush drops the value that was inserted. */
  lemma DropLosesCounted(cfg: Config, k: Key, v: Value, w: Value)
    requires 2 + 2 * cfg.keySize(k) + |w| <= cfg.queue && cfg.queue + 34 <= cfg.block
    ensures var n := Replaced(k, v, w);
            && Ordered(n, None, None) && Counted(n) && ItemCount(n) == 0
            && Dropped(Flush(cfg, n)) && Denotes(n, k, multiset{w})
  {
    hide Flush, Denotes, Ordered, Counted, ItemCount;
    ReplacedCounts(k, v, w);
    ReplacedFlush(cfg, k, v, w);
    ReplacedMeans(k, v, w);
  }
}
