/**
 * Trees that may be written, whatever their flags and counts are: conditions on
 * the tree as it stands.  Only what a flush can reach is asked about; a subtree
 * that is not in memory and receives no edit may be as it likes.
 */
module Readiness {
  import opened Types
  import opened Multimap
  import opened Tree
  import opened Meaning
  import opened Lookup
  import opened Swapping
  import opened BranchLists
  import opened Splitting
  import opened Merging
  import opened Flushing
  import opened Trust
  import opened Passing
  import opened Writing
  import opened Dropping
  import opened Reloading
  import Leaves
  import Overflow

  // ---------------------------------------------------------------- what a flush reaches

  /** An edit may reach branch i: one from above may (struck), or the queue is too large and holds one. */
  predicate Touched(cfg: Config, n: Node, struck: bool, i: nat)
    requires n.Internal? && i < |n.branches|
  {
    struck || (QueueSize(cfg, n.queue) > cfg.queue && |Range(n.branches, n.queue, i)| > 0)
  }

  /**
   * Along the path of a key: no edit goes deep before one it may not be swapped
   * with, and none is merged into a leaf at or behind the key of its chain.
   * `some` says that an edit of the key may come from above.
   */
  predicate SafeAt(cfg: Config, n: Node, k: Key, struck: bool, some: bool)
    decreases n
  {
    n.Internal? && |n.branches| > 0 ==>
      var i, es := Route(n.branches, k), EditsOn(n.queue, k);
      var t := Touched(cfg, n, struck, i);
      match n.branches[i].child
      case Leaf(l) => t && (some || es != []) && l.chain.Node? ==> k < Last(l.pairs).key
      case Internal(_, _) =>
        && (t ==> MixOK(Pending(n.branches[i].child, k), es))
        && (t || n.branches[i].loaded ==> SafeAt(cfg, n.branches[i].child, k, t, t && (some || es != [])))
  }

  ghost predicate Safe(cfg: Config, n: Node, lo: Option<Key>, hi: Option<Key>) {
    forall k :: Within(lo, hi, k) ==> SafeAt(cfg, n, k, false, false)
  }

  predicate Removes(e: Edit) { e.op == REMOVE_KEY || e.op == REMOVE_KV }

  function Removals(q: seq<Edit>): nat {
    if |q| == 0 then 0 else (if Removes(q[0]) then 1 else 0) + Removals(q[1..])
  }

  /** The least item count that a flush can leave in place of a node. */
  function Least(cfg: Config, n: Node, struck: bool): int
    decreases n, 1, 0
  {
    match n
    case Leaf(l) => Leaves.Count(l)
    case Internal(bs, q) => ListLeast(cfg, n, struck, 0) - Removals(q)
  }

  /** Stored counts count where a node is not read. */
  function BranchLeast(cfg: Config, n: Node, struck: bool, i: nat): int
    requires n.Internal? && i < |n.branches|
    decreases n, 0, 0
  {
    var b := n.branches[i];
    if b.loaded then Least(cfg, b.child, Touched(cfg, n, struck, i))
    else if Touched(cfg, n, struck, i) then
      var m := Least(cfg, b.child, true);
      if b.count < m then b.count else m
    else b.count
  }

  function ListLeast(cfg: Config, n: Node, struck: bool, i: nat): int
    requires n.Internal? && i <= |n.branches|
    decreases n, 0, 1 + |n.branches| - i
  {
    if i == |n.branches| then 0 else BranchLeast(cfg, n, struck, i) + ListLeast(cfg, n, struck, i + 1)
  }

  /**
   * Every internal node the flush reaches holds more items than the removals
   * that may strike it: those queued in it and below, and r from above.
   */
  predicate Ample(cfg: Config, n: Node, struck: bool, r: nat)
    decreases n
  {
    n.Internal? ==>
      && Least(cfg, n, struck) > r
      && forall i :: 0 <= i < |n.branches| ==>
           (n.branches[i].loaded || Touched(cfg, n, struck, i) ==>
              Ample(cfg, n.branches[i].child, Touched(cfg, n, struck, i),
                    if Touched(cfg, n, struck, i) then r + Removals(n.queue) else 0))
  }

  // ---------------------------------------------------------------- removals

  lemma {:induction false} RemovalsConcat(a: seq<Edit>, b: seq<Edit>)
    ensures Removals(a + b) == Removals(a) + Removals(b)
  {
    if |a| == 0 {
      assert a + b == b;
    } else {
      assert (a + b)[1..] == a[1..] + b;
      RemovalsConcat(a[1..], b);
    }
  }

  lemma RemovalsNone()
    ensures Removals([]) == 0
  {
  }

  lemma RemovalsOne(e: Edit)
    ensures Removals([e]) == if Removes(e) then 1 else 0
  {
    assert [e][1..] == [];
  }

  lemma RemovalsQueued(q: seq<Edit>, e: Edit)
    ensures Removals(Enqueue(q, e)) == Removals(q) + Removals([e])
  {
    var i := EditUpper(q, e.key);
    RemovalsConcat(q[..i] + [e], q[i..]);
    RemovalsConcat(q[..i], [e]);
    RemovalsConcat(q[..i], q[i..]);
    assert q == q[..i] + q[i..];
  }

  lemma RemovalsPart(q: seq<Edit>, a: nat, b: nat)
    requires a <= b <= |q|
    ensures Removals(q[a..]) == Removals(q[a..b]) + Removals(q[b..])
    ensures Removals(q[a..b]) <= Removals(q)
  {
    hide Removals;
    assert q[a..] == q[a..b] + q[b..] && q == q[..a] + q[a..];
    RemovalsConcat(q[a..b], q[b..]);
    RemovalsConcat(q[..a], q[a..]);
  }

  /** The removals for the branches from i on. */
  function RemovalsFrom(bs: seq<Branch>, q: seq<Edit>, i: nat): nat
    requires i <= |bs|
    decreases |bs| - i
  {
    if i == |bs| then 0 else Removals(Range(bs, q, i)) + RemovalsFrom(bs, q, i + 1)
  }

  lemma {:induction false} RemovalsDealt(bs: seq<Branch>, q: seq<Edit>, lo: Option<Key>, hi: Option<Key>, i: nat)
    requires |bs| > 0 && Separators(bs, lo, hi) && i < |bs|
    ensures RemovalsFrom(bs, q, i) == Removals(q[Start(bs, q, i)..])
    decreases |bs| - i
  {
    hide Cut, Removals;
    RangeEnds(bs, q, lo, hi, i);
    RemovalsPart(q, Start(bs, q, i), End(bs, q, i));
    if i + 1 < |bs| {
      RemovalsDealt(bs, q, lo, hi, i + 1);
    } else {
      assert q[|q|..] == [];
      RemovalsNone();
    }
  }

  // ---------------------------------------------------------------- edits take at most what they remove

  lemma StepLeast(e: Edit, b: Values, c: Values)
    requires Step(e, b, c)
    ensures |c| >= |b| - Removals([e])
  {
    RemovalsOne(e);
  }

  lemma EditedLeast(l: Leaves.Valid, e: Edit)
    ensures Leaves.Count(Leaves.Edited(l, e)) >= Leaves.Count(l) - Removals([e])
  {
    hide Leaves.Keeps, Leaves.LeafBag, Step;
    Leaves.ApplyCounts(l, e);
    Leaves.ApplyStep(l, e, e.key);
    StepLeast(e, Leaves.LeafBag(l, e.key), Leaves.LeafBag(Leaves.Edited(l, e), e.key));
  }

  lemma ModifyLeast(u: seq<Pair>, e: Edit)
    requires e.op != INSERT
    ensures |Modify(u, e)| >= |u| - Removals([e])
  {
    RemovalsOne(e);
  }

  lemma {:induction false} MergeFromLeast(u: seq<Pair>, c: seq<Pair>, es: seq<Edit>)
    ensures |MergeFrom(u, c, es)| >= |u| + |c| - Removals(es)
    decreases |c| + |es|
  {
    hide Modify;
    if |es| > 0 {
      RemovalsOne(es[0]);
    }
    if Modifies(c, es) {
      ModifyLeast(u, es[0]);
      MergeFromLeast(Modify(u, es[0]), c, es[1..]);
    } else if Inserts(c, es) {
      MergeFromLeast(u + [Pair(es[0].key, es[0].value)], c, es[1..]);
    } else if |c| > 0 {
      MergeFromLeast(u + [c[0]], c[1..], es);
    }
  }

  lemma MergeLeafLeast(l: Leaves.Valid, es: seq<Edit>)
    ensures Leaves.Count(MergeLeaf(l, es)) >= Leaves.Count(l) - Removals(es)
  {
    MergeFromLeast([], l.pairs, es);
  }

  lemma {:induction false} ListLeastMoves(cfg: Config, n: Node, m: Node, i: nat, j: nat, d: int)
    requires n.Internal? && m.Internal? && |n.branches| == |m.branches| && j <= |n.branches| && i < |n.branches|
    requires forall x :: 0 <= x < |n.branches| && x != i ==>
             BranchLeast(cfg, m, true, x) == BranchLeast(cfg, n, true, x)
    requires BranchLeast(cfg, m, true, i) >= BranchLeast(cfg, n, true, i) - d && d >= 0
    ensures ListLeast(cfg, m, true, j) >= ListLeast(cfg, n, true, j) - (if j <= i then d else 0)
    decreases |n.branches| - j
  {
    hide BranchLeast;
    if j < |n.branches| {
      ListLeastMoves(cfg, n, m, i, j + 1, d);
    }
  }

  lemma ShallowLeast(cfg: Config, n: Node, e: Edit)
    requires n.Internal?
    ensures Least(cfg, Apply(n, e, false), true) == Least(cfg, n, true) - Removals([e])
  {
    hide QueueSize, Enqueue;
    var m := Apply(n, e, false);
    RemovalsQueued(n.queue, e);
    SameLeast(cfg, n, m, 0);
  }

  lemma {:induction false} SameLeast(cfg: Config, n: Node, m: Node, j: nat)
    requires n.Internal? && m.Internal? && n.branches == m.branches && j <= |n.branches|
    ensures ListLeast(cfg, m, true, j) == ListLeast(cfg, n, true, j)
    decreases |n.branches| - j
  {
    if j < |n.branches| {
      SameLeast(cfg, n, m, j + 1);
    }
  }

  /** One edit, sent deep or queued, lowers the bound by a removal at most. */
  lemma {:induction false} ApplyLeast(cfg: Config, n: Node, e: Edit, deep: bool)
    ensures Least(cfg, Apply(n, e, deep), true) >= Least(cfg, n, true) - Removals([e])
    decreases n
  {
    match n
    case Leaf(l) => EditedLeast(l, e);
    case Internal(bs, q) =>
      if !deep {
        ShallowLeast(cfg, n, e);
      } else if |bs| > 0 {
        var i := Route(bs, e.key);
        ApplyLeast(cfg, bs[i].child, e, deep);
        ListLeastMoves(cfg, n, Apply(n, e, deep), i, 0, Removals([e]));
      }
  }

  lemma {:induction false} AmpleLess(cfg: Config, n: Node, struck: bool, r: nat, s: nat)
    requires Ample(cfg, n, struck, r) && s <= r
    ensures Ample(cfg, n, struck, s)
    decreases n
  {
    hide Least, Removals, Range, QueueSize;
    if n.Internal? {
      forall i | 0 <= i < |n.branches| && (n.branches[i].loaded || Touched(cfg, n, struck, i))
        ensures Ample(cfg, n.branches[i].child, Touched(cfg, n, struck, i),
                      if Touched(cfg, n, struck, i) then s + Removals(n.queue) else 0)
      {
        if Touched(cfg, n, struck, i) {
          AmpleLess(cfg, n.branches[i].child, true, r + Removals(n.queue), s + Removals(n.queue));
        }
      }
    }
  }

  lemma {:induction false} ApplyAmple(cfg: Config, n: Node, e: Edit, deep: bool, r: nat)
    requires Ample(cfg, n, true, r + Removals([e]))
    ensures Ample(cfg, Apply(n, e, deep), true, r)
    decreases n
  {
    hide Ample, Least, Enqueue, QueueSize, Removals;
    match n
    case Leaf(l) => AmpleLeaf(cfg, Leaves.Edited(l, e), r);
    case Internal(bs, q) =>
      var m, s := Apply(n, e, deep), r + Removals([e]) + Removals(q);
      ApplyLeast(cfg, n, e, deep);
      RemovalsQueued(q, e);
      AmpleParts(cfg, n, r + Removals([e]));
      if deep && |bs| > 0 {
        var i := Route(bs, e.key);
        ApplyAmple(cfg, bs[i].child, e, deep, r + Removals(q));
        forall j | 0 <= j < |bs|
          ensures Ample(cfg, bs[j].child, true, r + Removals(q))
        {
          AmpleLess(cfg, bs[j].child, true, s, r + Removals(q));
        }
      }
      AmpleIs(cfg, m, r);
  }

  lemma AmpleLeaf(cfg: Config, l: Leaves.Valid, r: nat)
    ensures Ample(cfg, Leaf(l), true, r)
  {
  }

  lemma AmpleParts(cfg: Config, n: Node, r: nat)
    requires n.Internal? && Ample(cfg, n, true, r)
    ensures Least(cfg, n, true) > r
    ensures forall i :: 0 <= i < |n.branches| ==> Ample(cfg, n.branches[i].child, true, r + Removals(n.queue))
  {
    hide Least, Removals;
    forall i | 0 <= i < |n.branches|
      ensures Ample(cfg, n.branches[i].child, true, r + Removals(n.queue))
    {
      assert Touched(cfg, n, true, i);
    }
  }

  lemma AmpleIs(cfg: Config, n: Node, r: nat)
    requires n.Internal? && Least(cfg, n, true) > r
    requires forall i :: 0 <= i < |n.branches| ==> Ample(cfg, n.branches[i].child, true, r + Removals(n.queue))
    ensures Ample(cfg, n, true, r)
  {
    hide Least, Removals, QueueSize, Range;
  }

  lemma {:induction false} MixLeast(cfg: Config, n: Node, es: seq<Edit>)
    ensures Least(cfg, MixMany(n, es), true) >= Least(cfg, n, true) - Removals(es)
    decreases |es|
  {
    hide Least;
    if |es| > 0 {
      ApplyLeast(cfg, n, es[0], !es[0].guaranteed);
      RemovalsOne(es[0]);
      MixLeast(cfg, Apply(n, es[0], !es[0].guaranteed), es[1..]);
    }
  }

  lemma {:induction false} MixAmple(cfg: Config, n: Node, es: seq<Edit>, r: nat)
    requires Ample(cfg, n, true, r + Removals(es))
    ensures Ample(cfg, MixMany(n, es), true, r)
    decreases |es|
  {
    hide Ample, Apply;
    if |es| > 0 {
      RemovalsOne(es[0]);
      assert Removals(es) == Removals([es[0]]) + Removals(es[1..]);
      ApplyAmple(cfg, n, es[0], !es[0].guaranteed, r + Removals(es[1..]));
      MixAmple(cfg, Apply(n, es[0], !es[0].guaranteed), es[1..], r);
    }
  }

  /** Once the edits from above have arrived, less may be struck. */
  lemma {:induction false} LeastRelaxed(cfg: Config, n: Node)
    ensures Least(cfg, n, false) >= Least(cfg, n, true)
    decreases n, 1
  {
    if n.Internal? {
      ListLeastRelaxed(cfg, n, 0);
    }
  }

  lemma {:induction false} ListLeastRelaxed(cfg: Config, n: Node, i: nat)
    requires n.Internal? && i <= |n.branches|
    ensures ListLeast(cfg, n, false, i) >= ListLeast(cfg, n, true, i)
    decreases n, 0, |n.branches| - i
  {
    if i < |n.branches| {
      LeastRelaxed(cfg, n.branches[i].child);
      ListLeastRelaxed(cfg, n, i + 1);
    }
  }

  lemma {:induction false} AmpleRelaxed(cfg: Config, n: Node, r: nat)
    requires Ample(cfg, n, true, r)
    ensures Ample(cfg, n, false, 0)
    decreases n
  {
    hide Least;
    if n.Internal? {
      LeastRelaxed(cfg, n);
      forall i | 0 <= i < |n.branches| && (n.branches[i].loaded || Touched(cfg, n, false, i))
        ensures Ample(cfg, n.branches[i].child, Touched(cfg, n, false, i),
                      if Touched(cfg, n, false, i) then Removals(n.queue) else 0)
      {
        assert Ample(cfg, n.branches[i].child, true, r + Removals(n.queue));
        if Touched(cfg, n, false, i) {
          AmpleLess(cfg, n.branches[i].child, true, r + Removals(n.queue), Removals(n.queue));
        } else {
          AmpleRelaxed(cfg, n.branches[i].child, r + Removals(n.queue));
        }
      }
    }
  }

  // ---------------------------------------------------------------- edits in order

  lemma {:induction false} MixQueued(waiting: seq<Edit>, es: seq<Edit>, e: Edit)
    requires MixOK(waiting, es) && e.guaranteed
    ensures MixOK(waiting, es + [e])
    decreases |es|
  {
    if |es| == 0 {
      assert es + [e] == [e] && [e][1..] == [];
    } else {
      assert (es + [e])[0] == es[0] && (es + [e])[1..] == es[1..] + [e];
      MixQueued(if es[0].guaranteed then waiting + [es[0]] else waiting, es[1..], e);
    }
  }

  lemma {:induction false} SafeLess(cfg: Config, n: Node, k: Key, struck: bool, some: bool, less: bool)
    requires SafeAt(cfg, n, k, struck, some) && (less ==> some)
    ensures SafeAt(cfg, n, k, struck, less)
    decreases n
  {
    hide MixOK, QueueSize;
    if n.Internal? && |n.branches| > 0 {
      var i, es := Route(n.branches, k), EditsOn(n.queue, k);
      var t := Touched(cfg, n, struck, i);
      if n.branches[i].child.Internal? && (t || n.branches[i].loaded) {
        SafeLess(cfg, n.branches[i].child, k, t, t && (some || es != []), t && (less || es != []));
      }
    }
  }

  lemma {:induction false} SafeRelaxed(cfg: Config, n: Node, k: Key, some: bool)
    requires SafeAt(cfg, n, k, true, some)
    ensures SafeAt(cfg, n, k, false, false)
    decreases n
  {
    hide MixOK, QueueSize;
    if n.Internal? && |n.branches| > 0 {
      var i, es := Route(n.branches, k), EditsOn(n.queue, k);
      var t := Touched(cfg, n, false, i);
      var c := n.branches[i].child;
      if c.Internal? {
        assert SafeAt(cfg, c, k, true, some || es != []);
        if t {
          SafeLess(cfg, c, k, true, some || es != [], es != []);
        } else if n.branches[i].loaded {
          SafeRelaxed(cfg, c, k, some || es != []);
        }
      }
    }
  }

  lemma SafeQueued(cfg: Config, n: Node, e: Edit, k: Key, some: bool)
    requires n.Internal? && SortedTop(n) && SafeAt(cfg, n, k, true, some) && e.guaranteed && (e.key == k ==> some)
    ensures SafeAt(cfg, Apply(n, e, false), k, true, some)
  {
    hide MixOK, QueueSize, Enqueue, EditsOn;
    EnqueueOn(n.queue, e, k);
    if |n.branches| > 0 {
      var c := n.branches[Route(n.branches, k)].child;
      if e.key == k {
        if c.Internal? {
          MixQueued(Pending(c, k), EditsOn(n.queue, k), e);
        }
      } else {
        assert EditsOn(n.queue, k) + [] == EditsOn(n.queue, k);
      }
    }
  }

  lemma {:induction false} SafeDeep(cfg: Config, n: Node, e: Edit, k: Key, some: bool, lo: Option<Key>, hi: Option<Key>)
    requires Ordered(n, lo, hi) && SafeAt(cfg, n, k, true, some)
    ensures SafeAt(cfg, Apply(n, e, true), k, true, some)
    decreases n
  {
    hide MixOK, QueueSize, EditsOn, AtLeast, BranchBefore, BranchLower, Hi, ItemCount, Leaves.Apply, Leaves.Inv, Lo;
    hide Pending, Route, Separators, Step;
    if n.Internal? {
      var bs, i, j := n.branches, Route(n.branches, e.key), Route(n.branches, k);
      var c, m := bs[i].child, Apply(n, e, true);
      RouteSame(bs, m.branches, k);
      if i == j {
        var l, h := Lo(bs, i, lo), Hi(bs, i, hi);
        if c.Internal? {
          DeepMeans(c, e, k, l, h);
          SafeDeep(cfg, c, e, k, some || EditsOn(n.queue, k) != [], l, h);
        } else {
          assert ChainKept(c.leaf, Leaves.Edited(c.leaf, e));
        }
      }
    }
  }

  lemma {:induction false} SafeMix(cfg: Config, n: Node, es: seq<Edit>, k: Key, some: bool, lo: Option<Key>,
                                   hi: Option<Key>)
    requires n.Internal? && Ordered(n, lo, hi) && EditsWithin(es, lo, hi) && SafeAt(cfg, n, k, true, some)
    requires EditsOn(es, k) != [] ==> some
    ensures SafeAt(cfg, MixMany(n, es), k, true, some)
    decreases |es|
  {
    hide SafeAt, Ordered;
    if |es| > 0 {
      var e := es[0];
      if e.guaranteed {
        OrderedSorted(n, lo, hi);
        SafeQueued(cfg, n, e, k, some);
      } else {
        SafeDeep(cfg, n, e, k, some, lo, hi);
      }
      ApplyOrdered(n, e, !e.guaranteed, lo, hi);
      SafeMix(cfg, Apply(n, e, !e.guaranteed), es[1..], k, some, lo, hi);
    }
  }

  // ---------------------------------------------------------------- the children after the queue is applied

  lemma SafeBatch(cfg: Config, n: Node, i: nat, lo: Option<Key>, hi: Option<Key>)
    requires n.Internal? && Ordered(n, lo, hi) && Safe(cfg, n, lo, hi) && i < |n.branches|
    requires QueueSize(cfg, n.queue) > cfg.queue
    ensures ApplyOK(n.branches[i].child, Range(n.branches, n.queue, i))
  {
    hide QueueSize, MixOK;
    var c, es := n.branches[i].child, Range(n.branches, n.queue, i);
    RangeWithin(n.branches, n.queue, lo, hi, i);
    if c.Leaf? {
      forall j | 0 <= j < |es| && c.leaf.chain.Node?
        ensures es[j].key < Last(c.leaf.pairs).key
      {
        ChildPends(n, i, lo, hi, es[j].key);
        EditsOnSome(es, j);
        assert SafeAt(cfg, n, es[j].key, false, false);
      }
      RangeSorted(n.branches, n.queue, i);
      BelowFits(c.leaf, es);
    } else {
      forall k
        ensures MixOK(Pending(c, k), EditsOn(es, k))
      {
        SafeBatchAt(cfg, n, i, k, lo, hi);
      }
    }
  }

  lemma SafeBatchAt(cfg: Config, n: Node, i: nat, k: Key, lo: Option<Key>, hi: Option<Key>)
    requires n.Internal? && Ordered(n, lo, hi) && Safe(cfg, n, lo, hi) && i < |n.branches|
    requires QueueSize(cfg, n.queue) > cfg.queue && n.branches[i].child.Internal?
    ensures MixOK(Pending(n.branches[i].child, k), EditsOn(Range(n.branches, n.queue, i), k))
  {
    hide QueueSize, Pending;
    var es := Range(n.branches, n.queue, i);
    RangeWithin(n.branches, n.queue, lo, hi, i);
    if EditsOn(es, k) == [] {
      assert MixOK(Pending(n.branches[i].child, k), []);
    } else {
      EditsOnAre(es, k);
      var e := EditsOn(es, k)[0];
      assert e in es && e.key == k;
      ChildPends(n, i, lo, hi, k);
      assert SafeAt(cfg, n, k, false, false);
    }
  }

  lemma SafeBatches(cfg: Config, n: Node, lo: Option<Key>, hi: Option<Key>)
    requires n.Internal? && Ordered(n, lo, hi) && Safe(cfg, n, lo, hi) && QueueSize(cfg, n.queue) > cfg.queue
    ensures AllApplyOK(n.branches, n.queue)
  {
    hide QueueSize, Safe, ApplyOK;
    forall i | 0 <= i < |n.branches|
      ensures ApplyOK(n.branches[i].child, Range(n.branches, n.queue, i))
    {
      SafeBatch(cfg, n, i, lo, hi);
    }
  }

  /** What a flush reaches of a node is ready. */
  ghost predicate Ready(cfg: Config, n: Node, lo: Option<Key>, hi: Option<Key>) {
    && Ordered(n, lo, hi) && Parsed(n) && Stocked(cfg, n) && LeavesReady(cfg, n, lo, hi)
    && Safe(cfg, n, lo, hi) && Ample(cfg, n, false, 0)
  }

  lemma ChildSafe(cfg: Config, n: Node, i: nat, lo: Option<Key>, hi: Option<Key>)
    requires n.Internal? && Ordered(n, lo, hi) && Safe(cfg, n, lo, hi) && i < |n.branches|
    requires MaybeApply(cfg, n.branches, n.queue).0[i].loaded
    ensures var c := MaybeApply(cfg, n.branches, n.queue).0[i].child;
            Safe(cfg, c, Lo(n.branches, i, lo), Hi(n.branches, i, hi))
  {
    hide QueueSize, MixOK;
    var bs, es := n.branches, Range(n.branches, n.queue, i);
    var c := bs[i].child;
    var l, h := Lo(bs, i, lo), Hi(bs, i, hi);
    var d := MaybeApply(cfg, bs, n.queue).0[i].child;
    RangeWithin(bs, n.queue, lo, hi, i);
    forall k | Within(l, h, k)
      ensures SafeAt(cfg, d, k, false, false)
    {
      ChildPends(n, i, lo, hi, k);
      assert SafeAt(cfg, n, k, false, false);
      if c.Internal? && Touched(cfg, n, false, i) {
        SafeMix(cfg, c, es, k, EditsOn(es, k) != [], l, h);
        SafeRelaxed(cfg, d, k, EditsOn(es, k) != []);
      }
    }
  }

  lemma RangeRemovals(bs: seq<Branch>, q: seq<Edit>, i: nat)
    requires i < |bs|
    ensures Removals(Range(bs, q, i)) <= Removals(q)
  {
    hide Removals;
    var a, b := Start(bs, q, i), End(bs, q, i);
    if a <= b {
      RemovalsPart(q, a, b);
    } else {
      RemovalsNone();
    }
  }

  lemma ChildAmple(cfg: Config, n: Node, i: nat)
    requires n.Internal? && Ample(cfg, n, false, 0) && i < |n.branches|
    requires MaybeApply(cfg, n.branches, n.queue).0[i].loaded
    ensures Ample(cfg, MaybeApply(cfg, n.branches, n.queue).0[i].child, false, 0)
  {
    hide QueueSize, Least, Removals, Range;
    var c, es := n.branches[i].child, Range(n.branches, n.queue, i);
    if c.Internal? && Touched(cfg, n, false, i) {
      RangeRemovals(n.branches, n.queue, i);
      assert Ample(cfg, c, true, Removals(n.queue));
      AmpleLess(cfg, c, true, Removals(n.queue), Removals(es));
      MixAmple(cfg, c, es, 0);
      AmpleRelaxed(cfg, MixMany(c, es), 0);
    }
  }

  /** Every child the flush visits is ready. */
  lemma ChildReady(cfg: Config, n: Node, i: nat, lo: Option<Key>, hi: Option<Key>)
    requires cfg.block >= 60 && n.Internal? && Ready(cfg, n, lo, hi) && i < |n.branches|
    requires MaybeApply(cfg, n.branches, n.queue).0[i].loaded
    ensures var cs := MaybeApply(cfg, n.branches, n.queue).0;
            Ready(cfg, cs[i].child, Lo(cs, i, lo), Hi(cs, i, hi)) && Height(cs[i].child) < Height(n)
  {
    hide Ordered, Parsed, Stocked, Safe, Ample, QueueSize, AllApplyOK, ApplyEdits, Height, LeavesReady;
    var cs := MaybeApply(cfg, n.branches, n.queue).0;
    ChildInPlace(cfg, n, i, lo, hi);
    ChildSafe(cfg, n, i, lo, hi);
    ChildAmple(cfg, n, i);
    ChildStocked(cfg, n, i);
    if QueueSize(cfg, n.queue) > cfg.queue {
      SafeBatch(cfg, n, i, lo, hi);
      AppliedStocked(cfg, n.branches, n.queue, i);
    }
    SafeReady(cfg, n, i, lo, hi);
  }

  /** A key that may receive an edit from above is below the chain of its leaf. */
  lemma {:induction false} SafeClear(cfg: Config, n: Node, k: Key)
    requires n.Internal? && |n.branches| > 0 && SafeAt(cfg, n, k, true, true)
    ensures ClearFor(n, k)
    decreases n
  {
    hide MixOK, QueueSize;
    var c := n.branches[Route(n.branches, k)].child;
    assert LeafFor(n, k) == LeafFor(c, k);
    match c
    case Leaf(l) => assert LeafFor(c, k) == l;
    case Internal(cs, _) =>
      if |cs| > 0 {
        SafeClear(cfg, c, k);
      }
  }

  lemma SafeReady(cfg: Config, n: Node, i: nat, lo: Option<Key>, hi: Option<Key>)
    requires n.Internal? && Ordered(n, lo, hi) && Safe(cfg, n, lo, hi) && LeavesReady(cfg, n, lo, hi)
    requires i < |n.branches|
    ensures LeavesReady(cfg, MaybeApply(cfg, n.branches, n.queue).0[i].child,
                        Lo(n.branches, i, lo), Hi(n.branches, i, hi))
  {
    hide LeavesReady, QueueSize, MixOK;
    var c, es := n.branches[i].child, Range(n.branches, n.queue, i);
    if QueueSize(cfg, n.queue) > cfg.queue {
      RangeWithin(n.branches, n.queue, lo, hi, i);
      forall j | 0 <= j < |es|
        ensures ClearFor(c, es[j].key)
      {
        SafeEdit(cfg, n, i, j, lo, hi);
      }
    }
    ChildLeavesReady(cfg, n, i, lo, hi);
  }

  lemma SafeEdit(cfg: Config, n: Node, i: nat, j: nat, lo: Option<Key>, hi: Option<Key>)
    requires n.Internal? && Ordered(n, lo, hi) && Safe(cfg, n, lo, hi) && i < |n.branches|
    requires QueueSize(cfg, n.queue) > cfg.queue && j < |Range(n.branches, n.queue, i)|
    requires EditsWithin(Range(n.branches, n.queue, i), Lo(n.branches, i, lo), Hi(n.branches, i, hi))
    ensures ClearFor(n.branches[i].child, Range(n.branches, n.queue, i)[j].key)
  {
    hide QueueSize, MixOK, Pending, Ordered, Range;
    var c, es := n.branches[i].child, Range(n.branches, n.queue, i);
    ChildPends(n, i, lo, hi, es[j].key);
    EditsOnSome(es, j);
    assert SafeAt(cfg, n, es[j].key, false, false);
    match c
    case Leaf(l) => assert LeafFor(c, es[j].key) == l;
    case Internal(cs, _) =>
      if |cs| > 0 {
        SafeClear(cfg, c, es[j].key);
      }
  }

  lemma ChildInPlace(cfg: Config, n: Node, i: nat, lo: Option<Key>, hi: Option<Key>)
    requires n.Internal? && Ordered(n, lo, hi) && Parsed(n) && Safe(cfg, n, lo, hi) && i < |n.branches|
    ensures var cs := MaybeApply(cfg, n.branches, n.queue).0; var c := cs[i].child;
            && Lo(cs, i, lo) == Lo(n.branches, i, lo) && Hi(cs, i, hi) == Hi(n.branches, i, hi)
            && Ordered(c, Lo(cs, i, lo), Hi(cs, i, hi)) && Parsed(c) && Height(c) < Height(n)
  {
    hide AllApplyOK, ApplyBranch, QueueSize, Safe;
    var cs := MaybeApply(cfg, n.branches, n.queue).0;
    if QueueSize(cfg, n.queue) > cfg.queue {
      SafeBatches(cfg, n, lo, hi);
    }
    MaybeStep(cfg, n.branches, n.queue, lo, hi);
    MaybeParsed(cfg, n.branches, n.queue);
    MaybeHeight(cfg, n.branches, n.queue);
    MaxHeightBounds(cs, i);
    SameSeparators(cfg, n, i);
  }

  // ---------------------------------------------------------------- what the flush leaves

  /** What the flush loop leaves of branch i counts at least this. */
  lemma BranchKept(cfg: Config, n: Node, i: nat)
    requires n.Internal? && i < |n.branches|
    requires var cs := MaybeApply(cfg, n.branches, n.queue).0;
             cs[i].loaded ==> BranchSum(Flush(cfg, cs[i].child)) >= Least(cfg, cs[i].child, false)
    ensures var cs := MaybeApply(cfg, n.branches, n.queue).0;
            var kept := if cs[i].loaded then BranchSum(Flush(cfg, cs[i].child)) else cs[i].count;
            kept >= BranchLeast(cfg, n, false, i)
                    - if QueueSize(cfg, n.queue) > cfg.queue then Removals(Range(n.branches, n.queue, i)) else 0
  {
    hide Flush, QueueSize, Least, Range;
    var c, es := n.branches[i].child, Range(n.branches, n.queue, i);
    if Touched(cfg, n, false, i) {
      var d := ApplyEdits(c, es);
      AppliedLeast(cfg, c, es);
      LeastRelaxed(cfg, d);
    } else {
      assert ApplyEdits(c, []) == c;
    }
  }

  lemma AppliedLeast(cfg: Config, c: Node, es: seq<Edit>)
    ensures Least(cfg, ApplyEdits(c, es), true) >= Least(cfg, c, true) - Removals(es)
  {
    if |es| > 0 {
      match c
      case Leaf(l) => MergeLeafLeast(l, es);
      case Internal(_, _) => MixLeast(cfg, c, es);
    }
  }

  lemma {:induction false} FlushFromKept(cfg: Config, n: Node, i: nat)
    requires n.Internal? && i <= |n.branches|
    requires var cs := MaybeApply(cfg, n.branches, n.queue).0;
             forall j :: 0 <= j < |cs| && cs[j].loaded ==>
               BranchSum(Flush(cfg, cs[j].child)) >= Least(cfg, cs[j].child, false)
    ensures BranchSum(FlushFrom(cfg, MaybeApply(cfg, n.branches, n.queue).0, i))
         >= ListLeast(cfg, n, false, i)
            - if QueueSize(cfg, n.queue) > cfg.queue then RemovalsFrom(n.branches, n.queue, i) else 0
    decreases |n.branches| - i
  {
    hide Flush, QueueSize, Least, BranchLeast, Range, Update;
    var cs := MaybeApply(cfg, n.branches, n.queue).0;
    if i < |n.branches| {
      FlushFromKept(cfg, n, i + 1);
      BranchKept(cfg, n, i);
      if cs[i].loaded {
        UpdateSum(cs[i], Flush(cfg, cs[i].child));
        BranchSumConcat(Update(cs[i], Flush(cfg, cs[i].child)), FlushFrom(cfg, cs, i + 1));
      } else {
        SumOne(cs[i]);
        BranchSumConcat([cs[i]], FlushFrom(cfg, cs, i + 1));
      }
    }
  }

  lemma {:induction false} DeltasLeast(q: seq<Edit>)
    ensures GuaranteedDeltas(q) + Removals(q) >= 0
  {
    if |q| > 0 {
      DeltasLeast(q[1..]);
    }
  }

  /** The bound holds: for the loop over the branches, and for the node. */
  lemma NodeKept(cfg: Config, n: Node, lo: Option<Key>, hi: Option<Key>)
    requires n.Internal? && Ordered(n, lo, hi)
    requires var cs := MaybeApply(cfg, n.branches, n.queue).0;
             forall j :: 0 <= j < |cs| && cs[j].loaded ==>
               BranchSum(Flush(cfg, cs[j].child)) >= Least(cfg, cs[j].child, false)
    ensures BranchSum(FlushFrom(cfg, MaybeApply(cfg, n.branches, n.queue).0, 0)) >= Least(cfg, n, false)
    ensures BranchSum(Flush(cfg, n)) >= Least(cfg, n, false)
  {
    hide QueueSize, BranchLeast, ListLeast, FlushFrom, SplitInternal, Ordered;
    var (cs, p) := MaybeApply(cfg, n.branches, n.queue);
    OrderedParts(n, lo, hi);
    FlushFromKept(cfg, n, 0);
    RemovalsDealt(n.branches, n.queue, lo, hi, 0);
    assert n.queue[0..] == n.queue;
    SplitInternalSum(cfg, FlushFrom(cfg, cs, 0), p);
    DeltasLeast(p);
  }

  /** A node that is ready keeps a branch, and is not dropped. */
  lemma ReadyKept(cfg: Config, n: Node, lo: Option<Key>, hi: Option<Key>)
    requires n.Internal? && Ready(cfg, n, lo, hi)
    requires BranchSum(FlushFrom(cfg, MaybeApply(cfg, n.branches, n.queue).0, 0)) >= Least(cfg, n, false)
    requires BranchSum(Flush(cfg, n)) >= Least(cfg, n, false)
    ensures !Branchless(Flush(cfg, n)) && !Dropped(Flush(cfg, n))
  {
    hide QueueSize, Least, FlushFrom, SplitInternal, Ordered, Parsed, Stocked, Safe;
    var (cs, p) := MaybeApply(cfg, n.branches, n.queue);
    if Branchless(Flush(cfg, n)) {
      SplitNothing(cfg, FlushFrom(cfg, cs, 0), p);
    }
    if Dropped(Flush(cfg, n)) {
      DroppedSum(Flush(cfg, n));
    }
  }

  lemma EmptyLeafHollow(cfg: Config, l: Leaves.Valid, lo: Option<Key>, hi: Option<Key>)
    requires cfg.block >= 60 && Stocked(cfg, Leaf(l)) && LeafReady(cfg, l)
    ensures LeafPasses(cfg, l) && BranchSum(Flush(cfg, Leaf(l))) == Leaves.Count(l)
    ensures DropOK(Leaf(l), Flush(cfg, Leaf(l)), lo, hi) && !Branchless(Flush(cfg, Leaf(l)))
  {
    var r := Flush(cfg, Leaf(l));
    LeafSum(cfg, l);
    SplitLeafCounted(cfg, PushedLeaf(cfg, l));
    if Dropped(r) {
      DroppedSum(r);
      assert |l.pairs| == 0;
      forall k, c | Within(lo, hi, k) && Denotes(Leaf(l), k, c)
        ensures c == multiset{}
      {
        assert Held(Leaf(l), k) == multiset{};
      }
    }
  }

  /** Every step of the flush of a ready node is in order. */
  lemma {:induction false} ReadyFlush(cfg: Config, n: Node, lo: Option<Key>, hi: Option<Key>)
    requires cfg.block >= 60 && Ready(cfg, n, lo, hi)
    ensures FlushOK(cfg, n, lo, hi) && BranchSum(Flush(cfg, n)) >= Least(cfg, n, false)
    ensures !Branchless(Flush(cfg, n)) && DropOK(n, Flush(cfg, n), lo, hi)
    decreases Height(n)
  {
    hide Ready, QueueSize, Flush, DropOK, AllApplyOK;
    match n
    case Leaf(l) => ReadyLeaf(cfg, l, lo, hi);
    case Internal(bs, q) =>
      var cs := MaybeApply(cfg, bs, q).0;
      ReadyParts(cfg, n, lo, hi);
      forall i | 0 <= i < |cs| && cs[i].loaded
        ensures ChildOK(cfg, cs, i, lo, hi) && BranchSum(Flush(cfg, cs[i].child)) >= Least(cfg, cs[i].child, false)
      {
        ChildReady(cfg, n, i, lo, hi);
        ReadyFlush(cfg, cs[i].child, Lo(cs, i, lo), Hi(cs, i, hi));
      }
      NodeKept(cfg, n, lo, hi);
      ReadyKept(cfg, n, lo, hi);
      NotDropped(n, Flush(cfg, n), lo, hi);
  }

  lemma NotDropped(n: Node, r: seq<Branch>, lo: Option<Key>, hi: Option<Key>)
    requires !Branchless(r) && !Dropped(r)
    ensures DropOK(n, r, lo, hi)
  {
  }

  lemma ReadyLeaf(cfg: Config, l: Leaves.Valid, lo: Option<Key>, hi: Option<Key>)
    requires cfg.block >= 60 && Ready(cfg, Leaf(l), lo, hi)
    ensures LeafPasses(cfg, l) && BranchSum(Flush(cfg, Leaf(l))) == Least(cfg, Leaf(l), false)
    ensures DropOK(Leaf(l), Flush(cfg, Leaf(l)), lo, hi) && !Branchless(Flush(cfg, Leaf(l)))
  {
    hide Flush, DropOK, Stocked, LeafPasses;
    ReadyLeafIs(cfg, l, lo, hi);
    EmptyLeafHollow(cfg, l, lo, hi);
  }

  lemma ReadyParts(cfg: Config, n: Node, lo: Option<Key>, hi: Option<Key>)
    requires n.Internal? && Ready(cfg, n, lo, hi)
    ensures Ordered(n, lo, hi) && (QueueSize(cfg, n.queue) > cfg.queue ==> AllApplyOK(n.branches, n.queue))
  {
    hide QueueSize, AllApplyOK, Safe, Ample, Parsed, Stocked;
    if QueueSize(cfg, n.queue) > cfg.queue {
      SafeBatches(cfg, n, lo, hi);
    }
  }

  /**
   * A tree may be written, whatever its flags and counts are, if on every path a
   * flush reaches no edit overtakes one it may not, none is merged behind a
   * chain, and every internal node holds more items than removals can take.
   */
  lemma ReadyWritable(cfg: Config, n: Node)
    requires cfg.block >= 60 && Ready(cfg, n, None, None)
    ensures Writable(cfg, n)
  {
    ReadyFlush(cfg, n, None, None);
  }

  // ---------------------------------------------------------------- nothing but leaves below the root

  lemma LeafBatches(n: Node, lo: Option<Key>, hi: Option<Key>)
    requires n.Internal? && Ordered(n, lo, hi) && ChainClear(n, lo, hi)
    requires forall i :: 0 <= i < |n.branches| ==> n.branches[i].child.Leaf?
    ensures AllApplyOK(n.branches, n.queue)
  {
    hide MergeOK, BelowChain, ChainClear;
    OrderedParts(n, lo, hi);
    forall i | 0 <= i < |n.branches|
      ensures ApplyOK(n.branches[i].child, Range(n.branches, n.queue, i))
    {
      LeafBatchOK(n, i, lo, hi);
      RangeSorted(n.branches, n.queue, i);
      BelowFits(n.branches[i].child.leaf, Range(n.branches, n.queue, i));
    }
  }

  /**
   * With nothing but leaves below the root, and none waiting at or behind the
   * key of a chain, any edits may be flushed, whatever their flags and the
   * stored counts are: a leaf that is dropped holds nothing.
   */
  lemma LeafChildrenFlush(cfg: Config, n: Node, lo: Option<Key>, hi: Option<Key>)
    requires cfg.block >= 60 && n.Internal? && forall i :: 0 <= i < |n.branches| ==> n.branches[i].child.Leaf?
    requires Ordered(n, lo, hi) && Parsed(n) && Stocked(cfg, n) && ChainClear(n, lo, hi) && LeavesReady(cfg, n, lo, hi)
    ensures FlushOK(cfg, n, lo, hi)
  {
    hide Ordered, Parsed, Stocked, ChainClear, LeavesReady, AllApplyOK, QueueSize, DropOK, LeafPasses;
    LeafBatches(n, lo, hi);
    var cs := MaybeApply(cfg, n.branches, n.queue).0;
    forall i | 0 <= i < |cs| && cs[i].loaded
      ensures ChildOK(cfg, cs, i, lo, hi)
    {
      ChildInOrder(cfg, n, i, lo, hi);
      ClearReady(cfg, n, i, lo, hi);
      BatchOK(n, i);
      AppliedStocked(cfg, n.branches, n.queue, i);
      ChildStocked(cfg, n, i);
      LeafChildOK(cfg, cs, i, lo, hi);
    }
  }

  lemma LeafChildOK(cfg: Config, cs: seq<Branch>, i: nat, lo: Option<Key>, hi: Option<Key>)
    requires cfg.block >= 60 && i < |cs| && cs[i].child.Leaf? && Stocked(cfg, cs[i].child)
    requires Ordered(cs[i].child, Lo(cs, i, lo), Hi(cs, i, hi))
    requires LeavesReady(cfg, cs[i].child, Lo(cs, i, lo), Hi(cs, i, hi))
    ensures ChildOK(cfg, cs, i, lo, hi)
  {
    hide Ordered, Stocked, LeavesReady, DropOK, LeafPasses, Flush;
    ReadyLeafIs(cfg, cs[i].child.leaf, Lo(cs, i, lo), Hi(cs, i, hi));
    EmptyLeafHollow(cfg, cs[i].child.leaf, Lo(cs, i, lo), Hi(cs, i, hi));
  }

  // ---------------------------------------------------------------- reopened trees

  /** With no child in memory and a queue that fits its area, write() touches nothing below the root. */
  lemma UnreadWritable(cfg: Config, n: Node)
    requires n.Internal? && |n.branches| > 0 && QueueSize(cfg, n.queue) <= cfg.queue
    requires forall i :: 0 <= i < |n.branches| ==> !n.branches[i].loaded
    ensures Writable(cfg, n)
  {
    UnreadFrom(cfg, n.branches, 0);
    assert n.branches[0..] == n.branches;
    if Branchless(Flush(cfg, n)) {
      SplitNothing(cfg, n.branches, n.queue);
    }
  }

  ghost predicate Unread(n: Node) {
    n.Internal? ==> |n.branches| > 0 && forall i :: 0 <= i < |n.branches| ==> !n.branches[i].loaded
  }

  lemma {:induction false} EditsUnread(n: Node, calls: seq<Call>)
    requires n.Internal? && Unread(n) && forall i :: 0 <= i < |calls| ==> calls[i].Change?
    ensures Run(n, calls).0.Internal? && Unread(Run(n, calls).0)
    decreases |calls|
  {
    if |calls| > 0 {
      EditsUnread(Exec(n, calls[0]).0, calls[1..]);
    }
  }

  /**
   * A tree that is opened again, with whatever edits stored in its queues, and
   * edited, may be written as long as the queue of its root fits its area.
   */
  lemma ReopenedWritable(cfg: Config, n: Node, calls: seq<Call>)
    requires n.Internal? && |n.branches| > 0 && forall i :: 0 <= i < |calls| ==> calls[i].Change?
    requires var t := Run(Reloaded(n), calls).0; t.Internal? && QueueSize(cfg, t.queue) <= cfg.queue
    ensures Writable(cfg, Run(Reloaded(n), calls).0)
  {
    hide Run, QueueSize, Writable;
    assert Unread(Reloaded(n));
    EditsUnread(Reloaded(n), calls);
    UnreadWritable(cfg, Run(Reloaded(n), calls).0);
  }
}
