/**
 * A deep edit goes straight to its leaf and overtakes whatever is queued on the
 * way: a tree for every pair of edits that this harms.
 */
module Overtaking {
  import opened Types
  import opened Multimap
  import opened Tree
  import opened Meaning
  import opened Lookup
  import opened Merging
  import opened Swapping
  import opened Reaching
  import opened Flushing
  import Leaves
  import Contents

  /** A root over one leaf, with one edit queued. */
  function Waiting(p: Edit, vs: seq<Value>): Node {
    Internal([Branch(None, |vs|, 0, true, Leaf(Leaves.LeafData(Leaves.Under(p.key, vs), Leaves.Overflow.End)))], [p])
  }

  lemma RouteOne(bs: seq<Branch>, k: Key)
    requires |bs| == 1
    ensures Route(bs, k) == 0
  {
  }

  lemma WaitingIs(p: Edit, vs: seq<Value>)
    ensures var n := Waiting(p, vs);
            Ordered(n, None, None) && Pending(n, p.key) == [p] && Held(n, p.key) == multiset(vs)
  {
    hide Route, Bag, Leaves.Under;
    var n := Waiting(p, vs);
    RouteOne(n.branches, p.key);
    EditsOnOne(p, p.key);
    assert Pending(n, p.key) == [] + [p] == [p];
    UnderOne(p.key, vs);
    assert Held(n.branches[0].child, p.key) == multiset(vs);
    assert Separators(n.branches, None, None);
  }

  lemma UnderOne(k: Key, vs: seq<Value>)
    ensures Leaves.LeafBag(Leaves.LeafData(Leaves.Under(k, vs), Leaves.Overflow.End), k) == multiset(vs)
  {
    Contents.BagUnder(k, vs, k);
  }

  /** The leaf removes or replaces the first of the two values. */
  lemma FirstTaken(p: Edit, e: Edit)
    requires p.key == e.key && Victims(p, e) != []
    ensures var n := Apply(Waiting(p, Victims(p, e)), e, true);
            Held(n, e.key) == multiset{[0] + p.value} + if e.op == UPSERT then multiset{e.value} else multiset{}
  {
    hide Route, Bag, Leaves.Keeps;
    var n, k, x := Waiting(p, Victims(p, e)), e.key, [0] + p.value;
    var l := n.branches[0].child.leaf;
    RouteOne(n.branches, k);
    RouteOne(Apply(n, e, true).branches, k);
    var left := if e.op == REMOVE_KEY then [x] else [e.value, x];
    EditedPairs(l, e, p.value, x);
    UnderOne(k, left);
    assert Held(Apply(n, e, true).branches[0].child, k) == multiset(left);
    assert multiset(left) == multiset{x} + if e.op == UPSERT then multiset{e.value} else multiset{};
  }

  lemma EditedPairs(l: Leaves.Valid, e: Edit, v: Value, x: Value)
    requires l == Leaves.LeafData(Leaves.Under(e.key, [v, x]), Leaves.Overflow.End)
    requires e.op == REMOVE_KEY || e.op == UPSERT
    ensures var left := if e.op == REMOVE_KEY then [x] else [e.value, x];
            Leaves.Edited(l, e) == Leaves.LeafData(Leaves.Under(e.key, left), Leaves.Overflow.End)
  {
    hide Leaves.Keeps, Last;
    var k := e.key;
    assert l.pairs == [Pair(k, v), Pair(k, x)];
    var r := Leaves.Edited(l, e);
    if e.op == REMOVE_KEY {
      assert r.pairs == [Pair(k, x)] == Leaves.Under(k, [x]);
    } else {
      assert LowerBound(l.pairs, k) == 0;
      assert r.pairs == [Pair(k, e.value), Pair(k, x)] == Leaves.Under(k, [e.value, x]);
    }
  }

  lemma DeepReaches(p: Edit, e: Edit, c: Values)
    requires p.key == e.key && Differs(p, e, multiset(Victims(p, e)), c)
    requires Victims(p, e) != [] ==>
               c == multiset{[0] + p.value} + if e.op == UPSERT then multiset{e.value} else multiset{}
    ensures Step(p, Held(Apply(Waiting(p, Victims(p, e)), e, true), e.key), c)
  {
    var vs := Victims(p, e);
    var n := Waiting(p, vs);
    if vs == [] {
      WaitingIs(p, vs);
      DeepMeans(n, e, e.key, None, None);
      var x :| Step(e, multiset(vs), x) && Step(p, x, c);
      StepDeterministic(e, multiset(vs), x, Held(Apply(n, e, true), e.key));
    } else {
      FirstTaken(p, e);
      DropAbsent(c, p.value);
    }
  }

  /** Whenever the two may not be swapped, some tree is changed by the deep edit in a way no one step explains. */
  lemma DeepLoses(p: Edit, e: Edit) returns (c: Values)
    requires p.key == e.key && !Harmless(p, e)
    ensures var n := Waiting(p, Victims(p, e));
            && Ordered(n, None, None)
            && Denotes(Apply(n, e, true), e.key, c)
            && forall m :: Denotes(n, e.key, m) ==> !Step(e, m, c)
  {
    hide Step, Ordered, Pending, Held, Apply, Harmless, Victims;
    var vs := Victims(p, e);
    c := Harmful(p, e);
    WaitingIs(p, vs);
    var n := Waiting(p, vs);
    DeepMeans(n, e, e.key, None, None);
    DeepReaches(p, e, c);
    StepsOne(p, Held(Apply(n, e, true), e.key), c);
    forall m | Denotes(n, e.key, m)
      ensures !Step(e, m, c)
    {
      StepsOne(p, multiset(vs), m);
      if Step(e, m, c) {
        ThenVia(p, e, multiset(vs), m, c);
      }
    }
  }

  /** Steps over the waiting edits and then the deep one: a denoted bag, and a step from it. */
  lemma DeepIsStep(n: Node, e: Edit, c: Values)
    ensures Steps(Pending(n, e.key) + [e], Held(n, e.key), c) <==> exists m :: Denotes(n, e.key, m) && Step(e, m, c)
  {
    hide Pending, Held, Step, Steps;
    var ps, h := Pending(n, e.key), Held(n, e.key);
    if Steps(ps + [e], h, c) {
      var m := StepsSplit(ps, [e], h, c);
      StepsOne(e, m, c);
    }
    if m :| Denotes(n, e.key, m) && Step(e, m, c) {
      StepsOne(e, m, c);
      StepsJoin(ps, [e], h, m, c);
    }
  }

  /**
   * For any list of waiting edits: the deep edit is one step of the reference on
   * everything the tree stands for if and only if each bag that the waiting
   * edits can make of what it leaves, they and then it could have made of what
   * was held.  Both sets are finite, and are computed from the queues and the leaf.
   */
  lemma DeepExact(n: Node, e: Edit, lo: Option<Key>, hi: Option<Key>)
    requires Ordered(n, lo, hi)
    ensures var k := e.key; var r := Apply(n, e, true);
            (forall c :: Denotes(r, k, c) ==> exists m :: Denotes(n, k, m) && Step(e, m, c))
            <==> Outcomes(Pending(n, k), {Held(r, k)}) <= Outcomes(Pending(n, k) + [e], {Held(n, k)})
  {
    hide Ordered, Pending, Held, Apply, Outcomes, Steps, Step;
    var k, r := e.key, Apply(n, e, true);
    DeepMeans(n, e, k, lo, hi);
    forall c
      ensures c in Outcomes(Pending(n, k), {Held(r, k)}) <==> Denotes(r, k, c)
      ensures c in Outcomes(Pending(n, k) + [e], {Held(n, k)}) <==> exists m :: Denotes(n, k, m) && Step(e, m, c)
    {
      OutcomesAre(Pending(n, k), {Held(r, k)}, c);
      OutcomesAre(Pending(n, k) + [e], {Held(n, k)}, c);
      DeepIsStep(n, e, c);
    }
  }
}
