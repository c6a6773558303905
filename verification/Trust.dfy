/**
 * When a flush may be trusted: conditions on the tree as it stands, under which
 * every node the flush visits meets the conditions of the code.
 */
module Trust {
  import opened Types
  import opened Multimap
  import opened Tree
  import opened Meaning
  import opened Lookup
  import opened Contents
  import opened Counting
  import opened BranchLists
  import opened Splitting
  import opened Merging
  import opened Flushing
  import Leaves
  import Overflow

  /** No edit that goes deep meets an edit of its key still queued below, or queued just before it. */
  predicate InTurn(clear: bool, es: seq<Edit>) {
    |es| > 0 ==>
      if es[0].guaranteed then InTurn(false, es[1..]) else clear && InTurn(clear, es[1..])
  }

  lemma {:induction false} InTurnMixes(waiting: seq<Edit>, es: seq<Edit>)
    requires InTurn(waiting == [], es)
    ensures MixOK(waiting, es)
    decreases |es|
  {
    if |es| > 0 {
      InTurnMixes(if es[0].guaranteed then waiting + [es[0]] else waiting, es[1..]);
    }
  }

  lemma InTurnNext(n: Node, es: seq<Edit>, k: Key, lo: Option<Key>, hi: Option<Key>)
    requires n.Internal? && Ordered(n, lo, hi) && |es| > 0
    requires InTurn(Pending(n, k) == [], EditsOn(es, k))
    ensures var e := es[0]; var n1 := Apply(n, e, !e.guaranteed);
            && n1.Internal?
            && (k == e.key && !e.guaranteed ==> Pending(n, k) == [])
            && InTurn(Pending(n1, k) == [], EditsOn(es[1..], k))
  {
    var e := es[0];
    var rest := EditsOn(es[1..], k);
    if e.guaranteed {
      ShallowPends(n, e, k);
    } else {
      DeepMeans(n, e, k, lo, hi);
    }
    if k == e.key {
      assert EditsOn(es, k) == [e] + rest && EditsOn(es, k)[1..] == rest;
    } else {
      assert EditsOn(es, k) == rest;
      assert Pending(n, k) + [] == Pending(n, k);
    }
  }

  /**
   * For keys below an internal child: what is queued further down is
   * guaranteed, no deep edit overtakes another edit of its key, and the
   * guarantees given are kept.
   */
  ghost predicate TrustyAt(n: Node, k: Key) {
    n.Internal? && |n.branches| > 0 ==>
      var c := n.branches[Route(n.branches, k)].child;
      c.Internal? ==>
        && AllGuaranteed(Pending(c, k))
        && InTurn(Pending(c, k) == [], EditsOn(n.queue, k))
        && Truthful(Pending(n, k), Held(n, k))
  }

  ghost predicate Trusty(n: Node, lo: Option<Key>, hi: Option<Key>) {
    forall k :: Within(lo, hi, k) ==> TrustyAt(n, k)
  }

  /** No edit waits for a key at or behind the last key of a leaf that has a chain. */
  ghost predicate ClearAt(n: Node, k: Key) {
    Pending(n, k) != [] && LeafFor(n, k).chain.Node? ==> k < Last(LeafFor(n, k).pairs).key
  }

  ghost predicate ChainClear(n: Node, lo: Option<Key>, hi: Option<Key>) {
    forall k :: Within(lo, hi, k) ==> ClearAt(n, k)
  }

  // ---------------------------------------------------------------- honest trees can be trusted

  lemma {:induction false} GuaranteedMix(clear: bool, es: seq<Edit>)
    requires AllGuaranteed(es)
    ensures InTurn(clear, es)
  {
    if |es| > 0 {
      GuaranteedMix(false, es[1..]);
    }
  }

  lemma HonestTrusty(n: Node, lo: Option<Key>, hi: Option<Key>)
    requires Honest(n, lo, hi)
    ensures Trusty(n, lo, hi)
  {
    forall k | Within(lo, hi, k)
      ensures TrustyAt(n, k)
    {
      assert HonestAt(n, k);
      if n.Internal? && |n.branches| > 0 {
        var p, es := Pending(n.branches[Route(n.branches, k)].child, k), EditsOn(n.queue, k);
        AllGuaranteedParts(p, es);
        GuaranteedMix(p == [], es);
      }
    }
  }

  lemma AllGuaranteedParts(a: seq<Edit>, b: seq<Edit>)
    requires AllGuaranteed(a + b)
    ensures AllGuaranteed(a) && AllGuaranteed(b)
  {
    assert forall i :: 0 <= i < |a| ==> a[i] == (a + b)[i];
    assert forall i :: 0 <= i < |b| ==> b[i] == (a + b)[|a| + i];
  }

  // ---------------------------------------------------------------- a mixed batch leaves an honest child

  lemma {:induction false} ApplyCounted(n: Node, e: Edit, deep: bool)
    requires Counted(n)
    ensures Counted(Apply(n, e, deep))
    decreases n
  {
    if n.Internal? && deep && |n.branches| > 0 {
      ApplyCounted(n.branches[Route(n.branches, e.key)].child, e, deep);
    }
  }

  lemma {:induction false} MixCounted(n: Node, es: seq<Edit>)
    requires Counted(n)
    ensures Counted(MixMany(n, es))
    decreases |es|
  {
    if |es| > 0 {
      ApplyCounted(n, es[0], !es[0].guaranteed);
      MixCounted(Apply(n, es[0], !es[0].guaranteed), es[1..]);
    }
  }

  ghost predicate BatchTrusty(n: Node, es: seq<Edit>, k: Key) {
    && AllGuaranteed(Pending(n, k))
    && InTurn(Pending(n, k) == [], EditsOn(es, k))
    && Truthful(Pending(n, k) + EditsOn(es, k), Held(n, k))
  }

  lemma GuaranteedJoin(a: seq<Edit>, e: Edit, k: Key)
    requires AllGuaranteed(a) && e.guaranteed
    ensures AllGuaranteed(a + If(e, k))
  {
  }

  lemma BatchQueued(n: Node, es: seq<Edit>, k: Key)
    requires n.Internal? && SortedTop(n) && |es| > 0 && BatchTrusty(n, es, k) && es[0].guaranteed
    requires InTurn(Pending(Apply(n, es[0], false), k) == [], EditsOn(es[1..], k))
    ensures BatchTrusty(Apply(n, es[0], false), es[1..], k)
  {
    ShallowPends(n, es[0], k);
    GuaranteedJoin(Pending(n, k), es[0], k);
    Regroup(Pending(n, k), If(es[0], k), EditsOn(es[1..], k));
  }

  lemma BatchApplied(n: Node, es: seq<Edit>, k: Key, lo: Option<Key>, hi: Option<Key>)
    requires n.Internal? && Ordered(n, lo, hi) && |es| > 0 && BatchTrusty(n, es, k) && !es[0].guaranteed
    requires k == es[0].key ==> Pending(n, k) == []
    requires InTurn(Pending(Apply(n, es[0], true), k) == [], EditsOn(es[1..], k))
    ensures BatchTrusty(Apply(n, es[0], true), es[1..], k)
  {
    hide Ordered, Apply, Steps, Held, Pending, InTurn;
    var e, rest := es[0], EditsOn(es[1..], k);
    DeepMeans(n, e, k, lo, hi);
    if k == e.key {
      assert Pending(n, k) + EditsOn(es, k) == [e] + rest;
      assert ([e] + rest)[1..] == rest && [] + rest == rest;
    } else {
      assert EditsOn(es, k) == rest;
    }
  }

  lemma BatchNext(n: Node, es: seq<Edit>, k: Key, lo: Option<Key>, hi: Option<Key>)
    requires n.Internal? && Ordered(n, lo, hi) && |es| > 0 && BatchTrusty(n, es, k)
    ensures BatchTrusty(Apply(n, es[0], !es[0].guaranteed), es[1..], k)
  {
    InTurnNext(n, es, k, lo, hi);
    if es[0].guaranteed {
      BatchQueued(n, es, k);
    } else {
      BatchApplied(n, es, k, lo, hi);
    }
  }

  lemma {:induction false} BatchHonest(n: Node, es: seq<Edit>, k: Key, lo: Option<Key>, hi: Option<Key>)
    requires n.Internal? && Ordered(n, lo, hi) && EditsWithin(es, lo, hi) && BatchTrusty(n, es, k)
    ensures HonestAt(MixMany(n, es), k)
    decreases |es|
  {
    if |es| == 0 {
      assert Pending(n, k) + [] == Pending(n, k);
    } else {
      BatchNext(n, es, k, lo, hi);
      ApplyOrdered(n, es[0], !es[0].guaranteed, lo, hi);
      BatchHonest(Apply(n, es[0], !es[0].guaranteed), es[1..], k, lo, hi);
    }
  }

  // ---------------------------------------------------------------- chains under a mixed batch

  /** A leaf's chain is never started, and keeps its key. */
  ghost predicate ChainKept(l: Leaves.Valid, r: Leaves.Valid) {
    r.chain.Node? ==> l.chain.Node? && Last(r.pairs).key == Last(l.pairs).key
  }

  lemma {:induction false} ApplyChain(n: Node, e: Edit, deep: bool, k: Key, lo: Option<Key>, hi: Option<Key>)
    requires Ordered(n, lo, hi)
    ensures ChainKept(LeafFor(n, k), LeafFor(Apply(n, e, deep), k))
    decreases n
  {
    if n.Internal? && deep {
      var bs, i := n.branches, Route(n.branches, e.key);
      RouteSame(bs, SetChild(bs, i, Apply(bs[i].child, e, deep)), k);
      ApplyChain(bs[i].child, e, deep, k, Lo(bs, i, lo), Hi(bs, i, hi));
    }
  }

  lemma {:induction false} MixChain(n: Node, es: seq<Edit>, k: Key, lo: Option<Key>, hi: Option<Key>)
    requires Ordered(n, lo, hi) && EditsWithin(es, lo, hi)
    ensures ChainKept(LeafFor(n, k), LeafFor(MixMany(n, es), k))
    decreases |es|
  {
    if |es| > 0 {
      ApplyChain(n, es[0], !es[0].guaranteed, k, lo, hi);
      ApplyOrdered(n, es[0], !es[0].guaranteed, lo, hi);
      MixChain(Apply(n, es[0], !es[0].guaranteed), es[1..], k, lo, hi);
    }
  }

  /** A mixed batch leaves no edit pending on a key that had none pending and was sent none. */
  lemma {:induction false} MixPends(n: Node, es: seq<Edit>, k: Key, lo: Option<Key>, hi: Option<Key>)
    requires n.Internal? && Ordered(n, lo, hi) && EditsWithin(es, lo, hi)
    ensures Pending(n, k) == [] && EditsOn(es, k) == [] ==> Pending(MixMany(n, es), k) == []
    decreases |es|
  {
    if |es| > 0 {
      var n1 := Apply(n, es[0], !es[0].guaranteed);
      if es[0].guaranteed {
        ShallowPends(n, es[0], k);
      } else {
        DeepMeans(n, es[0], k, lo, hi);
      }
      ApplyOrdered(n, es[0], !es[0].guaranteed, lo, hi);
      MixPends(n1, es[1..], k, lo, hi);
    }
  }

  // ---------------------------------------------------------------- the children after the queue is applied

  lemma ChildPends(n: Node, i: nat, lo: Option<Key>, hi: Option<Key>, k: Key)
    requires n.Internal? && Ordered(n, lo, hi) && i < |n.branches|
    requires Within(Lo(n.branches, i, lo), Hi(n.branches, i, hi), k)
    ensures Within(lo, hi, k) && Route(n.branches, k) == i
    ensures Pending(n, k) == Pending(n.branches[i].child, k) + EditsOn(Range(n.branches, n.queue, i), k)
    ensures EditsOn(Range(n.branches, n.queue, i), k) == EditsOn(n.queue, k)
    ensures Held(n, k) == Held(n.branches[i].child, k) && LeafFor(n, k) == LeafFor(n.branches[i].child, k)
  {
    WithinBounds(n.branches, lo, hi, i, k);
    RouteIs(n.branches, lo, hi, k, i);
    RangeOn(n.branches, n.queue, lo, hi, i, k);
  }

  /** An internal child, with the node's edits applied, is honest, counted and clear of chains. */
  lemma ChildAfter(n: Node, i: nat, lo: Option<Key>, hi: Option<Key>)
    requires n.Internal? && Ordered(n, lo, hi) && i < |n.branches| && n.branches[i].child.Internal?
    requires Trusty(n, lo, hi) && ChainClear(n, lo, hi) && Counted(n)
    ensures var c := ApplyEdits(n.branches[i].child, Range(n.branches, n.queue, i));
            var l, h := Lo(n.branches, i, lo), Hi(n.branches, i, hi);
            Honest(c, l, h) && Counted(c) && ChainClear(c, l, h)
  {
    var bs, es := n.branches, Range(n.branches, n.queue, i);
    var l, h := Lo(bs, i, lo), Hi(bs, i, hi);
    RangeWithin(bs, n.queue, lo, hi, i);
    MixCounted(bs[i].child, es);
    assert ApplyEdits(bs[i].child, es) == MixMany(bs[i].child, es);
    forall k | Within(l, h, k)
      ensures HonestAt(MixMany(bs[i].child, es), k) && ClearAt(MixMany(bs[i].child, es), k)
    {
      ChildPends(n, i, lo, hi, k);
      assert TrustyAt(n, k) && ClearAt(n, k);
      BatchHonest(bs[i].child, es, k, l, h);
      MixChain(bs[i].child, es, k, l, h);
      MixPends(bs[i].child, es, k, l, h);
    }
  }

  lemma ChildBefore(n: Node, i: nat, lo: Option<Key>, hi: Option<Key>)
    requires n.Internal? && Ordered(n, lo, hi) && i < |n.branches| && n.branches[i].child.Internal?
    requires Trusty(n, lo, hi) && ChainClear(n, lo, hi) && Counted(n)
    ensures var c := n.branches[i].child;
            var l, h := Lo(n.branches, i, lo), Hi(n.branches, i, hi);
            Honest(c, l, h) && Counted(c) && ChainClear(c, l, h)
  {
    var c := n.branches[i].child;
    forall k | Within(Lo(n.branches, i, lo), Hi(n.branches, i, hi), k)
      ensures HonestAt(c, k) && ClearAt(c, k)
    {
      ChildPends(n, i, lo, hi, k);
      assert TrustyAt(n, k) && ClearAt(n, k);
      TruthfulPrefix(Pending(c, k), EditsOn(n.queue, k), Held(n, k));
    }
  }

  /** The batch for a leaf child stays below its chain. */
  lemma LeafBatchOK(n: Node, i: nat, lo: Option<Key>, hi: Option<Key>)
    requires n.Internal? && Ordered(n, lo, hi) && i < |n.branches| && n.branches[i].child.Leaf?
    requires ChainClear(n, lo, hi)
    ensures BelowChain(n.branches[i].child.leaf, Range(n.branches, n.queue, i))
  {
    var l, es := n.branches[i].child.leaf, Range(n.branches, n.queue, i);
    RangeWithin(n.branches, n.queue, lo, hi, i);
    forall j | 0 <= j < |es| && l.chain.Node?
      ensures es[j].key < Last(l.pairs).key
    {
      var k := es[j].key;
      ChildPends(n, i, lo, hi, k);
      EditsOnSome(es, j);
      assert ClearAt(n, k);
    }
  }

  /** Everything applied here may be applied. */
  lemma BatchesOK(n: Node, lo: Option<Key>, hi: Option<Key>)
    requires n.Internal? && Ordered(n, lo, hi) && Trusty(n, lo, hi) && ChainClear(n, lo, hi)
    ensures AllApplyOK(n.branches, n.queue)
  {
    forall i | 0 <= i < |n.branches|
      ensures ApplyOK(n.branches[i].child, Range(n.branches, n.queue, i))
    {
      if n.branches[i].child.Leaf? {
        LeafBatchOK(n, i, lo, hi);
        RangeSorted(n.branches, n.queue, i);
        BelowFits(n.branches[i].child.leaf, Range(n.branches, n.queue, i));
      } else {
        forall k {
          InternalBatchOK(n, i, lo, hi, k);
        }
      }
    }
  }

  lemma InternalBatchOK(n: Node, i: nat, lo: Option<Key>, hi: Option<Key>, k: Key)
    requires n.Internal? && Ordered(n, lo, hi) && i < |n.branches| && n.branches[i].child.Internal?
    requires Trusty(n, lo, hi)
    ensures MixOK(Pending(n.branches[i].child, k), EditsOn(Range(n.branches, n.queue, i), k))
  {
    if Within(Lo(n.branches, i, lo), Hi(n.branches, i, hi), k) {
      ChildPends(n, i, lo, hi, k);
      assert TrustyAt(n, k);
      InTurnMixes(Pending(n.branches[i].child, k), EditsOn(n.queue, k));
    } else {
      RangeWithin(n.branches, n.queue, lo, hi, i);
      EditsOnNone(Range(n.branches, n.queue, i), k);
    }
  }

  // ---------------------------------------------------------------- room

  /** A pair of at most half a block. */
  predicate Small(cfg: Config, k: Key, v: Value) {
    cfg.keySize(k) + |v| <= cfg.block / 2
  }

  /** Nodes behind the first are within the block, and so is the first unless it is in memory. */
  ghost predicate ChainStored(block: nat, c: Overflow.Chain) {
    c.Node? ==> ChainFits(block, c.next) && (!c.loaded ==> OverflowSize(c.values) <= block)
  }

  /** Every value in the tree, and every value queued for it, is small. */
  ghost predicate Stocked(cfg: Config, n: Node) {
    match n
    case Leaf(l) =>
      && (forall k, v :: v in Leaves.LeafBag(l, k) ==> Small(cfg, k, v))
      && ChainStored(cfg.block, l.chain)
    case Internal(bs, q) =>
      && (forall i :: 0 <= i < |q| ==> Small(cfg, q[i].key, q[i].value))
      && (forall i :: 0 <= i < |bs| ==> Stocked(cfg, bs[i].child))
  }

  ghost predicate SmallEdits(cfg: Config, es: seq<Edit>) {
    forall i :: 0 <= i < |es| ==> Small(cfg, es[i].key, es[i].value)
  }

  lemma StepFrom(e: Edit, b: Values, c: Values, v: Value)
    requires Step(e, b, c) && v in c
    ensures v in b || v == e.value
  {
  }

  /** Nothing comes out of the reference that was not in it or in its edits. */
  lemma {:induction false} StepsFrom(es: seq<Edit>, b: Values, c: Values, v: Value)
    requires Steps(es, b, c) && v in c
    ensures v in b || exists i :: 0 <= i < |es| && es[i].value == v
  {
    if |es| > 0 {
      var m :| Step(es[0], b, m) && Steps(es[1..], m, c);
      StepsFrom(es[1..], m, c, v);
      if v in m {
        StepFrom(es[0], b, m, v);
      } else {
        var i :| 0 <= i < |es[1..]| && es[1..][i].value == v;
        assert es[i + 1].value == v;
      }
    }
  }

  lemma SmallFrom(cfg: Config, es: seq<Edit>, b: Values, c: Values, k: Key, v: Value)
    requires Steps(EditsOn(es, k), b, c) && v in c && SmallEdits(cfg, es)
    requires v in b ==> Small(cfg, k, v)
    ensures Small(cfg, k, v)
  {
    StepsFrom(EditsOn(es, k), b, c, v);
    EditsOnAre(es, k);
    if v !in b {
      var i :| 0 <= i < |EditsOn(es, k)| && EditsOn(es, k)[i].value == v;
      assert EditsOn(es, k)[i] in es;
    }
  }

  // -- chains stay stored

  lemma {:induction false} PullFits(block: nat, c: Overflow.Chain)
    requires c.Node? && Overflow.Valid(c) && ChainFits(block, c)
    ensures ChainFits(block, Overflow.Pull(c).1)
  {
    if c.next.End? {
      assert c.values == c.values[..|c.values| - 1] + [Last(c.values)];
      ValuesSizeConcat(c.values[..|c.values| - 1], [Last(c.values)]);
    } else {
      PullFits(block, c.next);
    }
  }

  lemma PullStored(block: nat, c: Overflow.Chain)
    requires c.Node? && Overflow.Valid(c) && ChainStored(block, c)
    ensures ChainStored(block, Overflow.Pull(c).1)
  {
    if c.next.Node? {
      PullFits(block, c.next);
    }
  }

  lemma WithoutSize(vs: seq<Value>, i: nat)
    requires i < |vs|
    ensures ValuesSize(Overflow.Without(vs, i)) <= ValuesSize(vs)
  {
    assert vs == vs[..i] + vs[i..];
    ValuesSizeConcat(vs[..i], vs[i..]);
    ValuesSizeConcat(vs[..i], vs[i + 1..]);
    assert vs[i..][1..] == vs[i + 1..];
  }

  lemma {:induction false} RemoveFits(block: nat, c: Overflow.Chain, v: Value)
    requires Overflow.Valid(c) && ChainFits(block, c) && ValuesFit(block, c)
    ensures ChainFits(block, Overflow.Remove(c, v))
  {
    if c.Node? {
      var i := Overflow.IndexOf(c.values, v);
      assert forall j :: 0 <= j < |Overflow.Flat(c.next)| ==>
               Overflow.Flat(c.next)[j] == Overflow.Flat(c)[|c.values| + j];
      if i == |c.values| {
        RemoveFits(block, c.next, v);
      } else if |c.values| > 1 {
        WithoutSize(c.values, i);
      } else if c.next.Node? {
        PulledFits(block, c);
      }
    }
  }

  lemma PulledFits(block: nat, c: Overflow.Chain)
    requires c.Node? && c.next.Node? && Overflow.Valid(c) && ChainFits(block, c.next) && ValuesFit(block, c)
    ensures var (w, rest) := Overflow.Pull(c.next); OverflowSize([w]) <= block && ChainFits(block, rest)
  {
    var (w, rest) := Overflow.Pull(c.next);
    PullFits(block, c.next);
    Overflow.PullTakesLast(c.next);
    var f := Overflow.Flat(c);
    assert f == c.values + (Overflow.Flat(rest) + [w]);
    assert f[|f| - 1] == w;
    assert [w][1..] == [] && ValuesSize([w]) == |w|;
  }

  lemma RemoveStored(block: nat, c: Overflow.Chain, v: Value)
    requires Overflow.Valid(c) && ChainStored(block, c) && ValuesFit(block, c)
    ensures ChainStored(block, Overflow.Remove(c, v))
  {
    if c.Node? {
      assert forall j :: 0 <= j < |Overflow.Flat(c.next)| ==>
               Overflow.Flat(c.next)[j] == Overflow.Flat(c)[|c.values| + j];
      RemoveFits(block, c.next, v);
      if c.next.Node? {
        PulledFits(block, c);
      }
    }
  }

  lemma StockedChain(cfg: Config, l: Leaves.Valid)
    requires cfg.block >= 60 && l.chain.Node?
    requires forall k, v :: v in Leaves.LeafBag(l, k) ==> Small(cfg, k, v)
    ensures ValuesFit(cfg.block, l.chain)
  {
    var f, k := Overflow.Flat(l.chain), Last(l.pairs).key;
    forall i | 0 <= i < |f|
      ensures HEADER + LINK + |f[i]| <= cfg.block
    {
      assert f[i] in multiset(f);
      assert f[i] in Leaves.LeafBag(l, k);
      assert Small(cfg, k, f[i]);
    }
  }

  /** One edit on a leaf keeps its chain stored. */
  lemma EditedStored(cfg: Config, l: Leaves.Valid, e: Edit)
    requires cfg.block >= 60 && Stocked(cfg, Leaf(l))
    ensures ChainStored(cfg.block, Leaves.Edited(l, e).chain)
  {
    hide ChainFits, ValuesFit, Leaves.LeafBag, Leaves.Keeps, Sorted;
    if l.chain.Node? {
      StockedChain(cfg, l);
      PullStored(cfg.block, l.chain);
      if e.op == REMOVE_KV {
        RemoveStored(cfg.block, l.chain, e.value);
      }
    }
  }

  lemma {:induction false} ApplyStocked(cfg: Config, n: Node, e: Edit, deep: bool)
    requires cfg.block >= 60 && Stocked(cfg, n) && Small(cfg, e.key, e.value)
    ensures Stocked(cfg, Apply(n, e, deep))
    decreases n
  {
    match n
    case Leaf(l) =>
      var r := Leaves.Edited(l, e);
      EditedStored(cfg, l, e);
      forall k, v | v in Leaves.LeafBag(r, k)
        ensures Small(cfg, k, v)
      {
        Leaves.ApplyStep(l, e, k);
        if k == e.key {
          StepFrom(e, Leaves.LeafBag(l, k), Leaves.LeafBag(r, k), v);
        }
      }
    case Internal(bs, q) =>
      if !deep {
        EnqueueSmall(cfg, q, e);
      } else if |bs| > 0 {
        ApplyStocked(cfg, bs[Route(bs, e.key)].child, e, deep);
      }
  }

  lemma EnqueueSmall(cfg: Config, q: seq<Edit>, e: Edit)
    requires SmallEdits(cfg, q) && Small(cfg, e.key, e.value)
    ensures SmallEdits(cfg, Enqueue(q, e))
  {
  }

  lemma {:induction false} MixStocked(cfg: Config, n: Node, es: seq<Edit>)
    requires cfg.block >= 60 && Stocked(cfg, n) && SmallEdits(cfg, es)
    ensures Stocked(cfg, MixMany(n, es))
    decreases |es|
  {
    if |es| > 0 {
      ApplyStocked(cfg, n, es[0], !es[0].guaranteed);
      MixStocked(cfg, Apply(n, es[0], !es[0].guaranteed), es[1..]);
    }
  }

  lemma MergeStocked(cfg: Config, l: Leaves.Valid, es: seq<Edit>)
    requires cfg.block >= 60 && Stocked(cfg, Leaf(l)) && SmallEdits(cfg, es) && MergeOK(l, es)
    ensures Stocked(cfg, Leaf(MergeLeaf(l, es)))
  {
    if IsSortedEdits(es) {
      forall k, v | v in Leaves.LeafBag(MergeLeaf(l, es), k)
        ensures Small(cfg, k, v)
      {
        MergeLeafStep(l, es, k);
        SmallFrom(cfg, es, Leaves.LeafBag(l, k), Leaves.LeafBag(MergeLeaf(l, es), k), k, v);
      }
    }
  }

  /** Applying queues keeps every value small. */
  lemma AppliedStocked(cfg: Config, bs: seq<Branch>, q: seq<Edit>, i: nat)
    requires cfg.block >= 60 && Stocked(cfg, Internal(bs, q)) && i < |bs| && ApplyOK(bs[i].child, Range(bs, q, i))
    ensures Stocked(cfg, ApplyBranch(bs, q, i).child)
  {
    var es := Range(bs, q, i);
    match bs[i].child
    case Leaf(l) => MergeStocked(cfg, l, es);
    case Internal(_, _) => MixStocked(cfg, bs[i].child, es);
  }

  lemma StockedPairs(cfg: Config, l: Leaves.Valid)
    requires cfg.block >= 60 && Stocked(cfg, Leaf(l))
    ensures PairsFit(cfg, l.pairs)
  {
    forall i | 0 <= i < |l.pairs|
      ensures PairSize(cfg, l.pairs[i]) <= cfg.block / 2
    {
      var p := l.pairs[i];
      BagHolds(l.pairs, p.key, p.value);
      assert p in l.pairs && Pair(p.key, p.value) == p;
      assert p.value in Leaves.LeafBag(l, p.key);
    }
  }

  // -- leaves as a flush splits them

  /** Small pairs, and a chain of values that fit, whatever key it belongs to. */
  ghost predicate LeafFed(cfg: Config, l: Leaves.Valid) {
    PairsFit(cfg, l.pairs) && ValuesFit(cfg.block, l.chain) && ChainStored(cfg.block, l.chain)
  }

  ghost predicate Fed(cfg: Config, n: Node) {
    match n
    case Leaf(l) => LeafFed(cfg, l)
    case Internal(_, _) => Stocked(cfg, n)
  }

  lemma StockedFed(cfg: Config, n: Node)
    requires cfg.block >= 60 && Stocked(cfg, n)
    ensures Fed(cfg, n)
  {
    match n
    case Leaf(l) =>
      StockedPairs(cfg, l);
      if l.chain.Node? {
        StockedChain(cfg, l);
      } else {
        NoValues(cfg.block, l.chain);
      }
    case Internal(_, _) =>
  }

  lemma NoValues(block: nat, c: Overflow.Chain)
    requires c.End?
    ensures ValuesFit(block, c)
  {
  }

  lemma MergedFed(cfg: Config, l: Leaves.Valid, es: seq<Edit>)
    requires cfg.block >= 60 && Stocked(cfg, Leaf(l)) && SmallEdits(cfg, es)
    ensures LeafFed(cfg, MergeLeaf(l, es))
  {
    hide ValuesFit, ChainStored, Merge, Leaves.LeafBag;
    StockedFed(cfg, Leaf(l));
    var r := MergeLeaf(l, es);
    if MergeRuns(l, es) {
      forall i | 0 <= i < |r.pairs|
        ensures PairSize(cfg, r.pairs[i]) <= cfg.block / 2
      {
        var p := r.pairs[i];
        MergeRefines(l.pairs, es, p.key);
        BagHolds(r.pairs, p.key, p.value);
        assert p in r.pairs && Pair(p.key, p.value) == p;
        PairSmall(cfg, l, p.key, p.value);
        SmallFrom(cfg, es, Bag(l.pairs, p.key), Bag(r.pairs, p.key), p.key, p.value);
      }
    }
  }

  lemma PairSmall(cfg: Config, l: Leaves.Valid, k: Key, v: Value)
    requires Stocked(cfg, Leaf(l))
    ensures v in Bag(l.pairs, k) ==> Small(cfg, k, v)
  {
    assert v in Bag(l.pairs, k) ==> v in Leaves.LeafBag(l, k);
  }

  /** A batch leaves nothing that does not fit. */
  lemma AppliedFed(cfg: Config, bs: seq<Branch>, q: seq<Edit>, i: nat)
    requires cfg.block >= 60 && Stocked(cfg, Internal(bs, q)) && i < |bs|
    ensures Fed(cfg, ApplyBranch(bs, q, i).child)
  {
    hide Stocked, LeafFed, SmallEdits, Range, MergeLeaf;
    var es := Range(bs, q, i);
    BatchStocked(cfg, bs, q, i);
    StockedFed(cfg, bs[i].child);
    match bs[i].child
    case Leaf(l) => MergedFed(cfg, l, es);
    case Internal(_, _) =>
      MixStocked(cfg, bs[i].child, es);
      StockedFed(cfg, MixMany(bs[i].child, es));
  }

  lemma BatchStocked(cfg: Config, bs: seq<Branch>, q: seq<Edit>, i: nat)
    requires Stocked(cfg, Internal(bs, q)) && i < |bs|
    ensures Stocked(cfg, bs[i].child) && SmallEdits(cfg, Range(bs, q, i))
  {
  }
}
