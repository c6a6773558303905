/** The order of a queue against the order in which its edits arrived. */
module Queueing {
  import opened Types
  import opened Multimap
  import opened Tree

  /** The content of a whole multimap: a bag for every key. */
  type Bags = imap<Key, Values>

  ghost predicate Total(f: Bags) {
    forall k: Key :: k in f
  }

  /** One edit on the whole content. */
  ghost predicate Edited(e: Edit, f: Bags, g: Bags)
    requires Total(f) && Total(g)
  {
    Step(e, f[e.key], g[e.key]) && forall k :: k != e.key ==> g[k] == f[k]
  }

  /** Edits applied to the whole content, left to right. */
  ghost predicate Effect(es: seq<Edit>, f: Bags, g: Bags)
    requires Total(f) && Total(g)
    decreases |es|
  {
    if |es| == 0 then forall k :: f[k] == g[k]
    else exists h: Bags :: Total(h) && Edited(es[0], f, h) && Effect(es[1..], h, g)
  }

  /** What edits do to the content is what they do to each key: edits on different keys commute. */
  lemma {:induction false} EffectIsPerKey(es: seq<Edit>, f: Bags, g: Bags)
    requires Total(f) && Total(g)
    ensures Effect(es, f, g) <==> forall k :: Steps(EditsOn(es, k), f[k], g[k])
    decreases |es|
  {
    if |es| == 0 {
      if forall k :: Steps(EditsOn(es, k), f[k], g[k]) {
        forall k
          ensures f[k] == g[k]
        {
          assert Steps(EditsOn(es, k), f[k], g[k]);
        }
      }
    } else {
      if Effect(es, f, g) {
        var h: Bags :| Total(h) && Edited(es[0], f, h) && Effect(es[1..], h, g);
        EffectIsPerKey(es[1..], h, g);
        forall k
          ensures Steps(EditsOn(es, k), f[k], g[k])
        {
          FirstThenRest(es, k, f[k], h[k], g[k]);
        }
      }
      if forall k :: Steps(EditsOn(es, k), f[k], g[k]) {
        var h := SplitFirst(es, f, g);
        EffectIsPerKey(es[1..], h, g);
      }
    }
  }

  lemma FirstThenRest(es: seq<Edit>, k: Key, b: Values, m: Values, c: Values)
    requires |es| > 0 && (if k == es[0].key then Step(es[0], b, m) else m == b)
    requires Steps(EditsOn(es[1..], k), m, c)
    ensures Steps(EditsOn(es, k), b, c)
  {
    if k == es[0].key {
      StepsOne(es[0], b, m);
    }
    StepsJoin(If(es[0], k), EditsOn(es[1..], k), b, m, c);
  }

  lemma SplitFirst(es: seq<Edit>, f: Bags, g: Bags) returns (h: Bags)
    requires |es| > 0 && Total(f) && Total(g)
    requires forall k :: Steps(EditsOn(es, k), f[k], g[k])
    ensures Total(h) && Edited(es[0], f, h)
    ensures forall k :: Steps(EditsOn(es[1..], k), h[k], g[k])
  {
    var e := es[0];
    var m := StepsSplit(If(e, e.key), EditsOn(es[1..], e.key), f[e.key], g[e.key]);
    StepsOne(e, f[e.key], m);
    h := f[e.key := m];
    forall k
      ensures Steps(EditsOn(es[1..], k), h[k], g[k])
    {
      if k != e.key {
        assert EditsOn(es, k) == [] + EditsOn(es[1..], k) == EditsOn(es[1..], k);
      }
    }
  }

  /** The queue after edits arrived one by one, each put at the upper bound of its key. */
  function Arrive(q: seq<Edit>, es: seq<Edit>): seq<Edit>
    decreases |es|
  {
    if |es| == 0 then q else Arrive(Enqueue(q, es[0]), es[1..])
  }

  lemma {:induction false} ArriveOn(q: seq<Edit>, es: seq<Edit>, k: Key)
    requires SortedEdits(q)
    ensures SortedEdits(Arrive(q, es))
    ensures EditsOn(Arrive(q, es), k) == EditsOn(q, k) + EditsOn(es, k)
    ensures |Arrive(q, es)| == |q| + |es|
    decreases |es|
  {
    hide EditUpper, SortedEdits;
    if |es| == 0 {
      assert EditsOn(q, k) + [] == EditsOn(q, k);
    } else {
      EnqueueSorted(q, es[0]);
      EnqueueOn(q, es[0], k);
      ArriveOn(Enqueue(q, es[0]), es[1..], k);
      Regroup(EditsOn(q, k), If(es[0], k), EditsOn(es[1..], k));
    }
  }

  /**
   * Queue order is harmless: the queue is sorted, holds every key's edits in
   * arrival order, and run left to right it does to any content exactly what
   * the edits do in the order they arrived.
   */
  lemma QueueOrderHarmless(es: seq<Edit>, f: Bags, g: Bags)
    requires Total(f) && Total(g)
    ensures SortedEdits(Arrive([], es))
    ensures forall k :: EditsOn(Arrive([], es), k) == EditsOn(es, k)
    ensures Effect(Arrive([], es), f, g) <==> Effect(es, f, g)
  {
    hide Steps, Effect, Arrive;
    ArriveOn([], es, 0);
    forall k
      ensures EditsOn(Arrive([], es), k) == EditsOn(es, k)
    {
      ArriveOn([], es, k);
      assert [] + EditsOn(es, k) == EditsOn(es, k);
    }
    EffectIsPerKey(Arrive([], es), f, g);
    EffectIsPerKey(es, f, g);
  }
}
