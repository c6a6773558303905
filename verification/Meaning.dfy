/**
 * What a tree means.  For each key: the values its leaf holds, and the edits
 * still pending on the way there, deepest queue first.  A bag is denoted when
 * the reference can reach it by those edits.
 */
module Meaning {
  import opened Types
  import opened Multimap
  import opened Tree
  import Leaves

  // ---------------------------------------------------------------- counts

  function BranchSum(bs: seq<Branch>): int {
    if |bs| == 0 then 0 else bs[0].count + BranchSum(bs[1..])
  }

  function GuaranteedDeltas(q: seq<Edit>): int {
    if |q| == 0 then 0 else (if q[0].guaranteed then q[0].Delta() else 0) + GuaranteedDeltas(q[1..])
  }

  function ItemCount(n: Node): int {
    match n
    case Leaf(l) => Leaves.Count(l)
    case Internal(bs, q) => BranchSum(bs) + GuaranteedDeltas(q)
  }

  // ---------------------------------------------------------------- edits

  function SetChild(bs: seq<Branch>, i: nat, c: Node): seq<Branch>
    requires i < |bs|
  {
    bs[i := bs[i].(child := c, loaded := true, count := ItemCount(c))]
  }

  /** tree_impl::apply: a deep edit goes straight to its leaf, a shallow one waits in the queue. */
  function Apply(n: Node, e: Edit, deep: bool): Node {
    match n
    case Leaf(l) => Leaf(Leaves.Edited(l, e))
    case Internal(bs, q) =>
      if !deep then Internal(bs, Enqueue(q, e))
      else if |bs| == 0 then n
      else
        var i := Route(bs, e.key);
        Internal(SetChild(bs, i, Apply(bs[i].child, e, deep)), q)
  }

  function ApplyMany(n: Node, es: seq<Edit>, deep: bool): Node
    decreases |es|
  {
    if |es| == 0 then n else ApplyMany(Apply(n, es[0], deep), es[1..], deep)
  }

  // ---------------------------------------------------------------- meaning

  function LeafFor(n: Node, k: Key): Leaves.Valid {
    match n
    case Leaf(l) => l
    case Internal(bs, _) =>
      if |bs| == 0 then Leaves.LeafData([], Leaves.Overflow.End) else LeafFor(bs[Route(bs, k)].child, k)
  }

  function Held(n: Node, k: Key): Values {
    Leaves.LeafBag(LeafFor(n, k), k)
  }

  function Pending(n: Node, k: Key): seq<Edit> {
    match n
    case Leaf(_) => []
    case Internal(bs, q) =>
      (if |bs| == 0 then [] else Pending(bs[Route(bs, k)].child, k)) + EditsOn(q, k)
  }

  /** The tree may stand for bag c at key k. */
  ghost predicate Denotes(n: Node, k: Key, c: Values) {
    Steps(Pending(n, k), Held(n, k), c)
  }

  lemma DenotesSome(n: Node, k: Key) returns (c: Values)
    ensures Denotes(n, k, c)
  {
    c := StepsTotal(Pending(n, k), Held(n, k));
  }

  ghost predicate SortedTop(n: Node) {
    n.Internal? ==> SortedEdits(n.queue)
  }

  // ---------------------------------------------------------------- one edit at the top

  lemma ShallowPends(n: Node, e: Edit, k: Key)
    requires n.Internal? && SortedTop(n)
    ensures Pending(Apply(n, e, false), k) == Pending(n, k) + If(e, k)
    ensures Held(Apply(n, e, false), k) == Held(n, k)
    ensures SortedTop(Apply(n, e, false))
  {
    hide EditsOn, Enqueue;
    EnqueueOn(n.queue, e, k);
    EnqueueSorted(n.queue, e);
  }

  /** Editing a tree from the top is one step of the reference on every bag it denotes. */
  lemma ShallowStep(n: Node, e: Edit, k: Key, c: Values) returns (m: Values)
    requires SortedTop(n) && Denotes(Apply(n, e, false), k, c)
    ensures Denotes(n, k, m) && Steps(If(e, k), m, c)
  {
    match n
    case Leaf(l) =>
      m := Held(n, k);
      Leaves.ApplyStep(l, e, k);
      if k == e.key {
        StepsOne(e, m, c);
      }
    case Internal(bs, q) =>
      ShallowPends(n, e, k);
      m := StepsSplit(Pending(n, k), If(e, k), Held(n, k), c);
  }

  lemma {:induction false} ManyStep(n: Node, es: seq<Edit>, k: Key, c: Values) returns (m: Values)
    requires SortedTop(n) && Denotes(ApplyMany(n, es, false), k, c)
    ensures Denotes(n, k, m) && Steps(EditsOn(es, k), m, c)
    decreases |es|
  {
    if |es| == 0 {
      m := c;
    } else {
      SortedTopKept(n, es[0]);
      var x := ManyStep(Apply(n, es[0], false), es[1..], k, c);
      m := ShallowStep(n, es[0], k, x);
      StepsJoin(If(es[0], k), EditsOn(es[1..], k), m, x, c);
    }
  }

  lemma SortedTopKept(n: Node, e: Edit)
    requires SortedTop(n)
    ensures SortedTop(Apply(n, e, false))
  {
    if n.Internal? {
      EnqueueSorted(n.queue, e);
    }
  }

  // ---------------------------------------------------------------- shape

  lemma {:induction false} ApplyHeight(n: Node, e: Edit, deep: bool)
    ensures Height(Apply(n, e, deep)) == Height(n)
  {
    if n.Internal? && deep && |n.branches| > 0 {
      var i := Route(n.branches, e.key);
      ApplyHeight(n.branches[i].child, e, deep);
      MaxHeightIs(n.branches, Apply(n, e, deep).branches);
    }
  }

  lemma {:induction false} ManyHeight(n: Node, es: seq<Edit>, deep: bool)
    ensures Height(ApplyMany(n, es, deep)) == Height(n)
    decreases |es|
  {
    if |es| > 0 {
      ApplyHeight(n, es[0], deep);
      ManyHeight(Apply(n, es[0], deep), es[1..], deep);
    }
  }

  lemma ChildHeight(n: Node, i: nat)
    requires n.Internal? && i < |n.branches|
    ensures Height(n.branches[i].child) < Height(n)
  {
    MaxHeightBounds(n.branches, i);
  }

  /** An edit inside the node's range keeps the tree search-ordered. */
  lemma {:induction false} ApplyOrdered(n: Node, e: Edit, deep: bool, lo: Option<Key>, hi: Option<Key>)
    requires Ordered(n, lo, hi) && Within(lo, hi, e.key)
    ensures Ordered(Apply(n, e, deep), lo, hi)
  {
    match n
    case Leaf(l) =>
      var r := Leaves.Edited(l, e);
      forall i | 0 <= i < |r.pairs|
        ensures Within(lo, hi, r.pairs[i].key)
      {
      }
    case Internal(bs, q) =>
      if !deep {
        EnqueueSorted(q, e);
        EnqueueWithin(q, e, lo, hi);
      } else {
        var i := Route(bs, e.key);
        RouteIs(bs, lo, hi, e.key, i);
        ApplyOrdered(bs[i].child, e, deep, Lo(bs, i, lo), Hi(bs, i, hi));
        SetChildOrdered(n, i, Apply(bs[i].child, e, deep), lo, hi);
      }
  }

  lemma EnqueueWithin(q: seq<Edit>, e: Edit, lo: Option<Key>, hi: Option<Key>)
    requires EditsWithin(q, lo, hi) && Within(lo, hi, e.key)
    ensures EditsWithin(Enqueue(q, e), lo, hi)
  {
  }

  lemma SetChildOrdered(n: Node, i: nat, c: Node, lo: Option<Key>, hi: Option<Key>)
    requires n.Internal? && Ordered(n, lo, hi) && i < |n.branches|
    requires Ordered(c, Lo(n.branches, i, lo), Hi(n.branches, i, hi))
    ensures Ordered(Internal(SetChild(n.branches, i, c), n.queue), lo, hi)
  {
    var bs, cs := n.branches, SetChild(n.branches, i, c);
    assert forall j :: 0 <= j < |bs| ==> cs[j].minKey == bs[j].minKey;
    assert Separators(cs, lo, hi);
    forall j | 0 <= j < |cs|
      ensures Ordered(cs[j].child, Lo(cs, j, lo), Hi(cs, j, hi))
    {
      assert Lo(cs, j, lo) == Lo(bs, j, lo) && Hi(cs, j, hi) == Hi(bs, j, hi);
    }
  }

  lemma {:induction false} ManyOrdered(n: Node, es: seq<Edit>, deep: bool, lo: Option<Key>, hi: Option<Key>)
    requires Ordered(n, lo, hi) && EditsWithin(es, lo, hi)
    ensures Ordered(ApplyMany(n, es, deep), lo, hi)
    decreases |es|
  {
    if |es| > 0 {
      ApplyOrdered(n, es[0], deep, lo, hi);
      ManyOrdered(Apply(n, es[0], deep), es[1..], deep, lo, hi);
    }
  }
}
