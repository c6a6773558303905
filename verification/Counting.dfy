/**
 * Stored counts.  When every queued edit is guaranteed and keeps its promise,
 * a node's item count is the length of its in-order contents.
 */
module Counting {
  import opened Types
  import opened Multimap
  import opened Tree
  import opened Meaning
  import opened Lookup
  import opened Contents
  import Leaves

  /** Every branch stores its child's item count. */
  ghost predicate Counted(n: Node) {
    n.Internal? ==>
      forall i :: 0 <= i < |n.branches| ==>
        n.branches[i].count == ItemCount(n.branches[i].child) && Counted(n.branches[i].child)
  }

  /** All pending edits of the key are guaranteed, and truthfully so. */
  ghost predicate HonestAt(n: Node, k: Key) {
    AllGuaranteed(Pending(n, k)) && Truthful(Pending(n, k), Held(n, k))
  }

  ghost predicate Honest(n: Node, lo: Option<Key>, hi: Option<Key>) {
    forall k :: Within(lo, hi, k) ==> HonestAt(n, k)
  }

  // ---------------------------------------------------------------- counts under shallow edits

  lemma {:induction false} GuaranteedConcat(a: seq<Edit>, b: seq<Edit>)
    ensures GuaranteedDeltas(a + b) == GuaranteedDeltas(a) + GuaranteedDeltas(b)
  {
    if |a| == 0 {
      assert a + b == b;
    } else {
      assert (a + b)[1..] == a[1..] + b;
      GuaranteedConcat(a[1..], b);
    }
  }

  lemma GuaranteedOne(e: Edit)
    ensures GuaranteedDeltas([e]) == if e.guaranteed then e.Delta() else 0
  {
    assert [e][1..] == [];
  }

  lemma {:induction false} GuaranteedAll(es: seq<Edit>)
    requires AllGuaranteed(es)
    ensures GuaranteedDeltas(es) == Deltas(es)
  {
    if |es| > 0 {
      GuaranteedAll(es[1..]);
    }
  }

  lemma ShallowCount(n: Node, e: Edit)
    requires n.Internal?
    ensures ItemCount(Apply(n, e, false)) == ItemCount(n) + GuaranteedDeltas([e])
  {
    var q := n.queue;
    var i := EditUpper(q, e.key);
    GuaranteedConcat(q[..i] + [e], q[i..]);
    GuaranteedConcat(q[..i], [e]);
    GuaranteedConcat(q[..i], q[i..]);
    assert q == q[..i] + q[i..];
  }

  lemma {:induction false} ManyShallowCount(n: Node, es: seq<Edit>)
    requires n.Internal?
    ensures ApplyMany(n, es, false).Internal? && ApplyMany(n, es, false).branches == n.branches
    ensures ItemCount(ApplyMany(n, es, false)) == ItemCount(n) + GuaranteedDeltas(es)
    decreases |es|
  {
    if |es| > 0 {
      ShallowCount(n, es[0]);
      ManyShallowCount(Apply(n, es[0], false), es[1..]);
      assert es == [es[0]] + es[1..];
      GuaranteedConcat([es[0]], es[1..]);
    }
  }

  lemma {:induction false} ManyShallowPends(n: Node, es: seq<Edit>, k: Key)
    requires n.Internal? && SortedTop(n)
    ensures Pending(ApplyMany(n, es, false), k) == Pending(n, k) + EditsOn(es, k)
    ensures Held(ApplyMany(n, es, false), k) == Held(n, k)
    decreases |es|
  {
    hide Held, Pending, Enqueue;
    if |es| == 0 {
      assert Pending(n, k) + [] == Pending(n, k);
    } else {
      ShallowPends(n, es[0], k);
      ManyShallowPends(Apply(n, es[0], false), es[1..], k);
      Regroup(Pending(n, k), If(es[0], k), EditsOn(es[1..], k));
    }
  }

  // ---------------------------------------------------------------- counts at a leaf

  /** Each edit on the leaf, in turn, keeps its promise. */
  ghost predicate LeafTruthful(l: Leaves.Valid, es: seq<Edit>) {
    forall k :: Truthful(EditsOn(es, k), Leaves.LeafBag(l, k))
  }

  lemma LeafTruthfulNext(l: Leaves.Valid, es: seq<Edit>)
    requires |es| > 0 && LeafTruthful(l, es)
    ensures LeafTruthful(Leaves.Edited(l, es[0]), es[1..])
    ensures es[0].guaranteed ==> Effective(es[0], Leaves.LeafBag(l, es[0].key))
  {
    var e, r := es[0], Leaves.Edited(l, es[0]);
    assert EditsOn(es, e.key)[0] == e;
    forall k
      ensures Truthful(EditsOn(es[1..], k), Leaves.LeafBag(r, k))
    {
      Leaves.ApplyStep(l, e, k);
      assert EditsOn(es, k) == If(e, k) + EditsOn(es[1..], k);
      if k == e.key {
        assert EditsOn(es, k)[1..] == EditsOn(es[1..], k);
      } else {
        assert EditsOn(es, k) == EditsOn(es[1..], k);
      }
    }
  }

  lemma {:induction false} ManyLeafCount(l: Leaves.Valid, es: seq<Edit>)
    requires LeafTruthful(l, es) && AllGuaranteed(es)
    ensures ItemCount(ApplyMany(Leaf(l), es, false)) == ItemCount(Leaf(l)) + GuaranteedDeltas(es)
    decreases |es|
  {
    if |es| > 0 {
      var e := es[0];
      LeafTruthfulNext(l, es);
      Leaves.ApplyStep(l, e, e.key);
      Leaves.ApplyCounts(l, e);
      StepDelta(e, Leaves.LeafBag(l, e.key), Leaves.LeafBag(Leaves.Edited(l, e), e.key));
      ManyLeafCount(Leaves.Edited(l, e), es[1..]);
    }
  }

  /** What one edit does to the number of values of its key. */
  function Effect(e: Edit, b: Values): int {
    match e.op
    case INSERT => 1
    case UPSERT => if b == multiset{} then 1 else 0
    case REMOVE_KEY => if b == multiset{} then 0 else -1
    case REMOVE_KV => if e.value in b then -1 else 0
  }

  lemma StepEffect(e: Edit, b: Values, c: Values)
    requires Step(e, b, c)
    ensures |c| == |b| + Effect(e, b)
  {
    if e.op == REMOVE_KV && e.value !in b {
      assert b - multiset{e.value} == b;
    }
  }

  /** What edits on a leaf, one after the other, do to the number of its items. */
  function Gain(l: Leaves.Valid, es: seq<Edit>): int
    decreases |es|
  {
    if |es| == 0 then 0
    else Effect(es[0], Leaves.LeafBag(l, es[0].key)) + Gain(Leaves.Edited(l, es[0]), es[1..])
  }

  lemma {:induction false} ManyLeafGain(l: Leaves.Valid, es: seq<Edit>)
    ensures ApplyMany(Leaf(l), es, false).Leaf?
    ensures ItemCount(ApplyMany(Leaf(l), es, false)) == ItemCount(Leaf(l)) + Gain(l, es)
    decreases |es|
  {
    hide Leaves.LeafBag, Leaves.Keeps, Step, Effect;
    if |es| > 0 {
      var e := es[0];
      Leaves.ApplyStep(l, e, e.key);
      Leaves.ApplyCounts(l, e);
      StepEffect(e, Leaves.LeafBag(l, e.key), Leaves.LeafBag(Leaves.Edited(l, e), e.key));
      ManyLeafGain(Leaves.Edited(l, e), es[1..]);
    }
  }

  /** What edits sent to a node do to its item count: all of them at a leaf, the guaranteed ones in a queue. */
  function CountChange(n: Node, es: seq<Edit>): int {
    match n
    case Leaf(l) => Gain(l, es)
    case Internal(_, _) => GuaranteedDeltas(es)
  }

  lemma ManyCountChange(n: Node, es: seq<Edit>)
    ensures ItemCount(ApplyMany(n, es, false)) == ItemCount(n) + CountChange(n, es)
  {
    match n
    case Leaf(l) => ManyLeafGain(l, es);
    case Internal(_, _) => ManyShallowCount(n, es);
  }

  // ---------------------------------------------------------------- one branch

  ghost predicate SettlesHonestly(n: Node, i: nat)
    requires n.Internal? && i < |n.branches|
  {
    var es := Range(n.branches, n.queue, i);
    match n.branches[i].child
    case Leaf(l) => LeafTruthful(l, es)
    case Internal(_, _) => true
  }

  /** The count of a child once its guaranteed edits are in: the old count and the deltas. */
  lemma SettledCount(n: Node, i: nat)
    requires n.Internal? && i < |n.branches| && SettlesHonestly(n, i)
    requires AllGuaranteed(Range(n.branches, n.queue, i))
    ensures ItemCount(Settled(n.branches, n.queue, i))
         == ItemCount(n.branches[i].child) + GuaranteedDeltas(Range(n.branches, n.queue, i))
  {
    var es := Range(n.branches, n.queue, i);
    match n.branches[i].child
    case Leaf(l) => ManyLeafCount(l, es);
    case Internal(_, _) => ManyShallowCount(n.branches[i].child, es);
  }

  lemma RangeTruthful(n: Node, i: nat, lo: Option<Key>, hi: Option<Key>, k: Key)
    requires n.Internal? && Ordered(n, lo, hi) && i < |n.branches| && n.branches[i].child.Leaf?
    requires forall j :: Within(lo, hi, j) ==> Truthful(Pending(n, j), Held(n, j))
    ensures Truthful(EditsOn(Range(n.branches, n.queue, i), k), Leaves.LeafBag(n.branches[i].child.leaf, k))
  {
    RangeOn(n.branches, n.queue, lo, hi, i, k);
    if Route(n.branches, k) == i {
      if Within(lo, hi, k) {
        LeafChildPends(n, k);
      } else {
        EditsOnNone(n.queue, k);
      }
    }
  }

  lemma LeafChildPends(n: Node, k: Key)
    requires n.Internal? && |n.branches| > 0 && n.branches[Route(n.branches, k)].child.Leaf?
    ensures Pending(n, k) == EditsOn(n.queue, k)
    ensures Held(n, k) == Leaves.LeafBag(n.branches[Route(n.branches, k)].child.leaf, k)
  {
    var c := n.branches[Route(n.branches, k)].child;
    assert LeafFor(c, k) == c.leaf && Pending(c, k) == [];
    assert Pending(n, k) == [] + EditsOn(n.queue, k);
  }

  lemma ChildSettles(n: Node, i: nat, lo: Option<Key>, hi: Option<Key>)
    requires n.Internal? && Ordered(n, lo, hi) && i < |n.branches|
    requires forall j :: Within(lo, hi, j) ==> Truthful(Pending(n, j), Held(n, j))
    ensures SettlesHonestly(n, i)
  {
    if n.branches[i].child.Leaf? {
      forall k {
        RangeTruthful(n, i, lo, hi, k);
      }
    }
  }

  /** A key's edits stay what they are when its branch is settled. */
  lemma SettledPends(n: Node, i: nat, lo: Option<Key>, hi: Option<Key>, k: Key)
    requires n.Internal? && Ordered(n, lo, hi) && i < |n.branches| && n.branches[i].child.Internal?
    requires Within(Lo(n.branches, i, lo), Hi(n.branches, i, hi), k) && Within(lo, hi, k)
    ensures Pending(Settled(n.branches, n.queue, i), k) == Pending(n, k)
    ensures Held(Settled(n.branches, n.queue, i), k) == Held(n, k)
  {
    RouteIs(n.branches, lo, hi, k, i);
    RangeOn(n.branches, n.queue, lo, hi, i, k);
    OrderedSorted(n.branches[i].child, Lo(n.branches, i, lo), Hi(n.branches, i, hi));
    ManyShallowPends(n.branches[i].child, Range(n.branches, n.queue, i), k);
  }

  lemma SettledHonest(n: Node, i: nat, lo: Option<Key>, hi: Option<Key>)
    requires n.Internal? && Ordered(n, lo, hi) && i < |n.branches| && Counted(n)
    requires n.branches[i].child.Internal? ==> Honest(n, lo, hi)
    ensures Honest(Settled(n.branches, n.queue, i), Lo(n.branches, i, lo), Hi(n.branches, i, hi))
    ensures Counted(Settled(n.branches, n.queue, i))
  {
    var c := Settled(n.branches, n.queue, i);
    ManyHeight(n.branches[i].child, Range(n.branches, n.queue, i), false);
    match n.branches[i].child
    case Leaf(l) =>
      assert Height(c) == 0;
    case Internal(_, _) =>
      ManyShallowCount(n.branches[i].child, Range(n.branches, n.queue, i));
      forall k | Within(Lo(n.branches, i, lo), Hi(n.branches, i, hi), k)
        ensures HonestAt(c, k)
      {
        RangeInside(n.branches, lo, hi, i, k);
        SettledPends(n, i, lo, hi, k);
      }
  }

  lemma RangeInside(bs: seq<Branch>, lo: Option<Key>, hi: Option<Key>, i: nat, k: Key)
    requires |bs| > 0 && Separators(bs, lo, hi) && i < |bs|
    requires Within(Lo(bs, i, lo), Hi(bs, i, hi), k)
    ensures Within(lo, hi, k)
  {
  }

  // ---------------------------------------------------------------- all branches

  lemma HonestEdits(n: Node, lo: Option<Key>, hi: Option<Key>)
    requires n.Internal? && Ordered(n, lo, hi) && Honest(n, lo, hi)
    ensures AllGuaranteed(n.queue)
    ensures forall k :: Within(lo, hi, k) ==> Truthful(Pending(n, k), Held(n, k))
  {
    forall i | 0 <= i < |n.queue|
      ensures n.queue[i].guaranteed
    {
      var k := n.queue[i].key;
      assert HonestAt(n, k);
      EditsOnSome(n.queue, i);
      var p := Pending(n.branches[Route(n.branches, k)].child, k);
      assert n.queue[i] in p + EditsOn(n.queue, k);
    }
  }

  /** The counts of the branches from i on, with the edits queued for them. */
  function CountFrom(bs: seq<Branch>, q: seq<Edit>, i: nat): int
    requires i <= |bs|
    decreases |bs| - i
  {
    if i == |bs| then 0 else bs[i].count + GuaranteedDeltas(Range(bs, q, i)) + CountFrom(bs, q, i + 1)
  }

  lemma {:induction false} CountFromSums(bs: seq<Branch>, q: seq<Edit>, lo: Option<Key>, hi: Option<Key>, i: nat)
    requires |bs| > 0 && Separators(bs, lo, hi) && i < |bs|
    ensures CountFrom(bs, q, i) == BranchSum(bs[i..]) + GuaranteedDeltas(q[Start(bs, q, i)..])
    decreases |bs| - i
  {
    hide Cut;
    RangeEnds(bs, q, lo, hi, i);
    var a, b := Start(bs, q, i), End(bs, q, i);
    assert q[a..] == q[a..b] + q[b..];
    GuaranteedConcat(q[a..b], q[b..]);
    assert bs[i..][1..] == bs[i + 1..];
    if i + 1 < |bs| {
      CountFromSums(bs, q, lo, hi, i + 1);
    } else {
      assert q[b..] == [];
    }
  }

  /** The item count of an honest, counted tree is the length of its contents. */
  lemma {:induction false} ContentCount(n: Node, lo: Option<Key>, hi: Option<Key>)
    requires Ordered(n, lo, hi) && Counted(n) && Honest(n, lo, hi)
    ensures |Content(n)| == ItemCount(n)
    decreases Height(n), 1, 0
  {
    match n
    case Leaf(l) => Leaves.Overflow.CountIsLength(l.chain);
    case Internal(bs, q) =>
      ContentFromCount(n, 0, lo, hi);
      CountFromSums(bs, q, lo, hi, 0);
      assert bs[0..] == bs && q[0..] == q;
  }

  lemma SettledFacts(n: Node, i: nat, lo: Option<Key>, hi: Option<Key>)
    requires n.Internal? && Ordered(n, lo, hi) && Counted(n) && Honest(n, lo, hi) && i < |n.branches|
    ensures var c := Settled(n.branches, n.queue, i);
            && Ordered(c, Lo(n.branches, i, lo), Hi(n.branches, i, hi)) && Counted(c)
            && Honest(c, Lo(n.branches, i, lo), Hi(n.branches, i, hi))
            && Height(c) < Height(n)
            && ItemCount(c) == n.branches[i].count + GuaranteedDeltas(Range(n.branches, n.queue, i))
  {
    HonestEdits(n, lo, hi);
    ChildSettles(n, i, lo, hi);
    SettledCount(n, i);
    SettledHonest(n, i, lo, hi);
    SettledOrdered(n, i, lo, hi);
  }

  lemma ContentFromStep(bs: seq<Branch>, q: seq<Edit>, i: nat)
    requires i < |bs|
    ensures ContentFrom(bs, q, i) == Content(Settled(bs, q, i)) + ContentFrom(bs, q, i + 1)
  {
  }

  lemma {:induction false} SettledContentCount(n: Node, i: nat, lo: Option<Key>, hi: Option<Key>)
    requires n.Internal? && Ordered(n, lo, hi) && Counted(n) && Honest(n, lo, hi) && i < |n.branches|
    ensures |Content(Settled(n.branches, n.queue, i))|
         == n.branches[i].count + GuaranteedDeltas(Range(n.branches, n.queue, i))
    decreases Height(n), 0, 0
  {
    SettledFacts(n, i, lo, hi);
    ContentCount(Settled(n.branches, n.queue, i), Lo(n.branches, i, lo), Hi(n.branches, i, hi));
  }

  lemma {:induction false} ContentFromCount(n: Node, i: nat, lo: Option<Key>, hi: Option<Key>)
    requires n.Internal? && Ordered(n, lo, hi) && Counted(n) && Honest(n, lo, hi) && i <= |n.branches|
    ensures |ContentFrom(n.branches, n.queue, i)| == CountFrom(n.branches, n.queue, i)
    decreases Height(n), 0, 1 + |n.branches| - i
  {
    if i < |n.branches| {
      SettledContentCount(n, i, lo, hi);
      ContentFromCount(n, i + 1, lo, hi);
      ContentFromStep(n.branches, n.queue, i);
    }
  }
}
