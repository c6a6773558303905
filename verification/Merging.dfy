/** LeafNode::applyAll: one pass that merges sorted pairs with sorted edits. */
module Merging {
  import opened Types
  import opened Multimap
  import Leaves
  import Overflow

  // ---------------------------------------------------------------- the merge

  /** What stops the backward scan for an upsert or a removal. */
  predicate Hits(e: Edit, p: Pair) {
    e.op == UPSERT || e.op == REMOVE_KEY || (e.op == REMOVE_KV && e.value == p.value)
  }

  /** Scans back from position n while the key matches; -1 if nothing is hit. */
  function LastHit(u: seq<Pair>, e: Edit, n: nat): (r: int)
    requires n <= |u|
    ensures -1 <= r < n
    ensures r >= 0 ==> u[r].key == e.key && Hits(e, u[r])
  {
    if n == 0 || u[n - 1].key != e.key then -1
    else if Hits(e, u[n - 1]) then n - 1
    else LastHit(u, e, n - 1)
  }

  /** An upsert or a removal at the end of what has been merged so far. */
  function Modify(u: seq<Pair>, e: Edit): seq<Pair> {
    var i := LastHit(u, e, |u|);
    if e.op == UPSERT then
      (if i >= 0 then u[i := Pair(u[i].key, e.value)] else u + [Pair(e.key, e.value)])
    else if i >= 0 then u[..i] + u[i + 1..]
    else u
  }

  /** An edit that works on the merged part: it comes strictly before the next pair to copy. */
  predicate Modifies(c: seq<Pair>, es: seq<Edit>) {
    |es| > 0 && es[0].op != INSERT && (|c| == 0 || es[0].key < c[0].key)
  }

  predicate Inserts(c: seq<Pair>, es: seq<Edit>) {
    |es| > 0 && es[0].op == INSERT && (|c| == 0 || es[0].key <= c[0].key)
  }

  /** The merge, from the pairs merged so far, the pairs to copy and the edits to take. */
  function MergeFrom(u: seq<Pair>, c: seq<Pair>, es: seq<Edit>): seq<Pair>
    decreases |c| + |es|
  {
    if Modifies(c, es) then MergeFrom(Modify(u, es[0]), c, es[1..])
    else if Inserts(c, es) then MergeFrom(u + [Pair(es[0].key, es[0].value)], c, es[1..])
    else if |c| > 0 then MergeFrom(u + [c[0]], c[1..], es)
    else u
  }

  function Merge(ps: seq<Pair>, es: seq<Edit>): seq<Pair> {
    MergeFrom([], ps, es)
  }

  // ---------------------------------------------------------------- one modification is one step

  lemma {:induction false} LastHitMisses(u: seq<Pair>, e: Edit, n: nat)
    requires n <= |u| && Sorted(u) && (forall i :: 0 <= i < |u| ==> u[i].key <= e.key)
    requires LastHit(u, e, n) < 0
    ensures forall i :: 0 <= i < n && u[i].key == e.key ==> !Hits(e, u[i])
  {
    if n > 0 && u[n - 1].key == e.key {
      LastHitMisses(u, e, n - 1);
    }
  }

  ghost predicate StepsOn(e: Edit, b: Values, c: Values, k: Key) {
    if k == e.key then Step(e, b, c) else b == c
  }

  lemma UpsertHit(u: seq<Pair>, e: Edit, i: nat, k: Key)
    requires i < |u| && u[i].key == e.key && e.op == UPSERT
    ensures StepsOn(e, Bag(u, k), Bag(u[i := Pair(u[i].key, e.value)], k), k)
  {
    var x := u[i].value;
    BagUpdateAt(u, i, Pair(e.key, e.value), k);
    BagHolds(u, e.key, x);
    assert u[i] in u;
    var b, c := Bag(u, k), Bag(u[i := Pair(u[i].key, e.value)], k);
    if k == e.key {
      Leaves.Exchange(c, b, x, e.value);
      Leaves.ExchangeIsStep(e, b, c, x);
    } else {
      assert b == b + multiset{} == c + multiset{} == c;
    }
  }

  lemma RemoveHit(u: seq<Pair>, e: Edit, i: nat, k: Key)
    requires i < |u| && u[i].key == e.key && Hits(e, u[i]) && e.op != UPSERT
    ensures StepsOn(e, Bag(u, k), Bag(u[..i] + u[i + 1..], k), k)
  {
    hide Bag;
    BagAt(u, i, k);
    var x, b, c := u[i].value, Bag(u, k), Bag(u[..i] + u[i + 1..], k);
    if k == e.key {
      assert b == c + multiset{x};
      assert x in b && c == b - multiset{x};
    }
  }

  lemma MissedKey(u: seq<Pair>, e: Edit)
    requires Sorted(u) && (forall i :: 0 <= i < |u| ==> u[i].key <= e.key)
    requires LastHit(u, e, |u|) < 0 && (e.op == UPSERT || e.op == REMOVE_KEY)
    ensures Bag(u, e.key) == multiset{}
  {
    LastHitMisses(u, e, |u|);
    BagEmpty(u, e.key);
  }

  lemma MissedValue(u: seq<Pair>, e: Edit)
    requires Sorted(u) && (forall i :: 0 <= i < |u| ==> u[i].key <= e.key)
    requires LastHit(u, e, |u|) < 0 && e.op == REMOVE_KV
    ensures Bag(u, e.key) - multiset{e.value} == Bag(u, e.key)
  {
    LastHitMisses(u, e, |u|);
    BagHolds(u, e.key, e.value);
  }

  lemma ModifyMissed(u: seq<Pair>, e: Edit, k: Key)
    requires Sorted(u) && (forall i :: 0 <= i < |u| ==> u[i].key <= e.key) && e.op != INSERT
    requires LastHit(u, e, |u|) < 0
    ensures StepsOn(e, Bag(u, k), Bag(Modify(u, e), k), k)
  {
    if e.op == REMOVE_KV {
      MissedValue(u, e);
    } else {
      MissedKey(u, e);
      BagConcat(u, [Pair(e.key, e.value)], k);
      BagOfOne(Pair(e.key, e.value), k);
    }
  }

  /** An upsert or a removal at the end of the merged part is one step of the reference. */
  lemma ModifyStep(u: seq<Pair>, e: Edit, k: Key)
    requires Sorted(u) && (forall i :: 0 <= i < |u| ==> u[i].key <= e.key) && e.op != INSERT
    ensures StepsOn(e, Bag(u, k), Bag(Modify(u, e), k), k)
  {
    var i := LastHit(u, e, |u|);
    if i < 0 {
      ModifyMissed(u, e, k);
    } else if e.op == UPSERT {
      UpsertHit(u, e, i, k);
    } else {
      RemoveHit(u, e, i, k);
    }
  }

  /** Sorted, at or below the edit's key, and with no key but those of u and the edit. */
  ghost predicate Capped(u: seq<Pair>, e: Edit, r: seq<Pair>) {
    && Sorted(r)
    && forall i :: 0 <= i < |r| ==> r[i].key <= e.key && (r[i].key == e.key || Leaves.HasKey(u, r[i].key))
  }

  lemma SameCapped(u: seq<Pair>, e: Edit)
    requires Sorted(u) && (forall j :: 0 <= j < |u| ==> u[j].key <= e.key)
    ensures Capped(u, e, u)
  {
  }

  lemma UpdateCapped(u: seq<Pair>, e: Edit, i: nat)
    requires Sorted(u) && (forall j :: 0 <= j < |u| ==> u[j].key <= e.key) && i < |u|
    ensures Capped(u, e, u[i := Pair(u[i].key, e.value)])
  {
    var r := u[i := Pair(u[i].key, e.value)];
    assert forall j :: 0 <= j < |r| ==> r[j].key == u[j].key;
  }

  lemma PushCapped(u: seq<Pair>, e: Edit)
    requires Sorted(u) && (forall j :: 0 <= j < |u| ==> u[j].key <= e.key)
    ensures Capped(u, e, u + [Pair(e.key, e.value)])
  {
    var r := u + [Pair(e.key, e.value)];
    assert forall j :: 0 <= j < |u| ==> r[j] == u[j];
  }

  lemma EraseCapped(u: seq<Pair>, e: Edit, i: nat)
    requires Sorted(u) && (forall j :: 0 <= j < |u| ==> u[j].key <= e.key) && i < |u|
    ensures Capped(u, e, u[..i] + u[i + 1..])
  {
    var r := u[..i] + u[i + 1..];
    assert forall j :: 0 <= j < |r| ==> r[j] == if j < i then u[j] else u[j + 1];
  }

  lemma ModifySorted(u: seq<Pair>, e: Edit)
    requires Sorted(u) && (forall i :: 0 <= i < |u| ==> u[i].key <= e.key) && e.op != INSERT
    ensures Capped(u, e, Modify(u, e))
  {
    var i := LastHit(u, e, |u|);
    if e.op == UPSERT {
      if i >= 0 { UpdateCapped(u, e, i); } else { PushCapped(u, e); }
    } else if i >= 0 {
      EraseCapped(u, e, i);
    } else {
      SameCapped(u, e);
    }
  }

  // ---------------------------------------------------------------- the whole merge

  /** Merged pairs stay at or below everything still to come. */
  ghost predicate MergeInv(u: seq<Pair>, c: seq<Pair>, es: seq<Edit>) {
    && Sorted(u) && Sorted(c) && SortedEdits(es)
    && (forall i :: 0 <= i < |u| ==> (|c| > 0 ==> u[i].key <= c[0].key) && (|es| > 0 ==> u[i].key <= es[0].key))
  }

  lemma ModifyInv(u: seq<Pair>, c: seq<Pair>, es: seq<Edit>)
    requires MergeInv(u, c, es) && Modifies(c, es)
    ensures MergeInv(Modify(u, es[0]), c, es[1..])
  {
    ModifySorted(u, es[0]);
  }

  lemma InsertInv(u: seq<Pair>, c: seq<Pair>, es: seq<Edit>)
    requires MergeInv(u, c, es) && Inserts(c, es)
    ensures MergeInv(u + [Pair(es[0].key, es[0].value)], c, es[1..])
  {
  }

  lemma CopyInv(u: seq<Pair>, c: seq<Pair>, es: seq<Edit>)
    requires MergeInv(u, c, es) && !Modifies(c, es) && !Inserts(c, es) && |c| > 0
    ensures MergeInv(u + [c[0]], c[1..], es)
  {
  }

  lemma ModifyTotal(u: seq<Pair>, c: seq<Pair>, es: seq<Edit>, k: Key)
    requires MergeInv(u, c, es) && Modifies(c, es)
    ensures Steps(If(es[0], k), Bag(u, k) + Bag(c, k), Bag(Modify(u, es[0]), k) + Bag(c, k))
  {
    var e, x, y, z := es[0], Bag(u, k), Bag(Modify(u, es[0]), k), Bag(c, k);
    ModifyStep(u, e, k);
    if k == e.key {
      BagEmpty(c, k);
      assert x + z == x && y + z == y;
      StepsOne(e, x, y);
    }
  }

  lemma InsertTotal(u: seq<Pair>, c: seq<Pair>, e: Edit, k: Key)
    requires e.op == INSERT
    ensures Steps(If(e, k), Bag(u, k) + Bag(c, k), Bag(u + [Pair(e.key, e.value)], k) + Bag(c, k))
  {
    var p := Pair(e.key, e.value);
    BagConcat(u, [p], k);
    BagOfOne(p, k);
    if k == e.key {
      StepsOne(e, Bag(u, k) + Bag(c, k), Bag(u + [p], k) + Bag(c, k));
    }
  }

  lemma CopyTotal(u: seq<Pair>, c: seq<Pair>, k: Key)
    requires |c| > 0
    ensures Bag(u + [c[0]], k) + Bag(c[1..], k) == Bag(u, k) + Bag(c, k)
  {
    BagConcat(u, [c[0]], k);
    BagOfOne(c[0], k);
  }

  /** The merge takes the edits of every key, in order, as steps of the reference. */
  lemma {:induction false} MergeFromSteps(u: seq<Pair>, c: seq<Pair>, es: seq<Edit>, k: Key)
    requires MergeInv(u, c, es)
    ensures Steps(EditsOn(es, k), Bag(u, k) + Bag(c, k), Bag(MergeFrom(u, c, es), k))
    decreases |c| + |es|
  {
    if Modifies(c, es) {
      ModifyInv(u, c, es);
      ModifyTotal(u, c, es, k);
      MergeFromSteps(Modify(u, es[0]), c, es[1..], k);
      StepsJoin(If(es[0], k), EditsOn(es[1..], k), Bag(u, k) + Bag(c, k),
                Bag(Modify(u, es[0]), k) + Bag(c, k), Bag(MergeFrom(u, c, es), k));
    } else if Inserts(c, es) {
      var v := u + [Pair(es[0].key, es[0].value)];
      InsertInv(u, c, es);
      InsertTotal(u, c, es[0], k);
      MergeFromSteps(v, c, es[1..], k);
      StepsJoin(If(es[0], k), EditsOn(es[1..], k), Bag(u, k) + Bag(c, k),
                Bag(v, k) + Bag(c, k), Bag(MergeFrom(u, c, es), k));
    } else if |c| > 0 {
      CopyInv(u, c, es);
      CopyTotal(u, c, k);
      MergeFromSteps(u + [c[0]], c[1..], es, k);
    }
  }

  /** The keys of the result come from the pairs and the edits, and stay in order. */
  lemma {:induction false} MergeFromSorted(u: seq<Pair>, c: seq<Pair>, es: seq<Edit>, lo: Option<Key>, hi: Option<Key>)
    requires MergeInv(u, c, es)
    requires PairsWithin(u, lo, hi) && PairsWithin(c, lo, hi) && EditsWithin(es, lo, hi)
    ensures Sorted(MergeFrom(u, c, es)) && PairsWithin(MergeFrom(u, c, es), lo, hi)
    decreases |c| + |es|
  {
    if Modifies(c, es) {
      ModifyInv(u, c, es);
      ModifySorted(u, es[0]);
      MergeFromSorted(Modify(u, es[0]), c, es[1..], lo, hi);
    } else if Inserts(c, es) {
      InsertInv(u, c, es);
      MergeFromSorted(u + [Pair(es[0].key, es[0].value)], c, es[1..], lo, hi);
    } else if |c| > 0 {
      CopyInv(u, c, es);
      MergeFromSorted(u + [c[0]], c[1..], es, lo, hi);
    }
  }

  /**
   * applyAll refines one-at-a-time editing: sorted in, sorted out, and every
   * key's values are reached from its old values by its edits in order.
   */
  lemma MergeRefines(ps: seq<Pair>, es: seq<Edit>, k: Key)
    requires Sorted(ps) && SortedEdits(es)
    ensures Sorted(Merge(ps, es))
    ensures Steps(EditsOn(es, k), Bag(ps, k), Bag(Merge(ps, es), k))
  {
    MergeFromSorted([], ps, es, None, None);
    MergeFromSteps([], ps, es, k);
    assert Bag([], k) + Bag(ps, k) == Bag(ps, k);
  }

  // ---------------------------------------------------------------- a last pair no edit reaches

  /** Edits below the last key leave the last pair where it is. */
  lemma {:induction false} MergeFromLast(u: seq<Pair>, c: seq<Pair>, es: seq<Edit>)
    requires MergeInv(u, c, es) && |c| > 0 && forall i :: 0 <= i < |es| ==> es[i].key < Last(c).key
    ensures |MergeFrom(u, c, es)| > 0 && Last(MergeFrom(u, c, es)) == Last(c)
    decreases |c| + |es|
  {
    if Modifies(c, es) {
      ModifyInv(u, c, es);
      MergeFromLast(Modify(u, es[0]), c, es[1..]);
    } else if Inserts(c, es) {
      InsertInv(u, c, es);
      MergeFromLast(u + [Pair(es[0].key, es[0].value)], c, es[1..]);
    } else {
      CopyInv(u, c, es);
      if |c| > 1 {
        MergeFromLast(u + [c[0]], c[1..], es);
      } else {
        assert es == [];
        assert MergeFrom(u, c, es) == MergeFrom(u + [c[0]], [], []) == u + [c[0]];
      }
    }
  }

  // ---------------------------------------------------------------- agreement with one-at-a-time editing

  /** A sorted list of pairs in which no key has two values is determined by its bags. */
  lemma {:induction false} SortedBagsEqual(a: seq<Pair>, b: seq<Pair>)
    requires Sorted(a) && Sorted(b)
    requires forall k :: Bag(a, k) == Bag(b, k) && |Bag(a, k)| <= 1
    ensures a == b
  {
    if |a| == 0 || |b| == 0 {
      NoPairs(a, b);
    } else {
      HeadsEqual(a, b);
      forall k
        ensures Bag(a[1..], k) == Bag(b[1..], k) && |Bag(a[1..], k)| <= 1
      {
        assert Bag(a, k) == One(a[0], k) + Bag(a[1..], k);
        assert Bag(b, k) == One(a[0], k) + Bag(b[1..], k);
        Cancel(Bag(a[1..], k), Bag(b[1..], k), One(a[0], k));
      }
      SortedBagsEqual(a[1..], b[1..]);
    }
  }

  lemma Cancel(x: Values, y: Values, z: Values)
    requires z + x == z + y
    ensures x == y
  {
    assert forall v :: (z + x)[v] == z[v] + x[v];
    assert forall v :: (z + y)[v] == z[v] + y[v];
  }

  lemma NoPairs(a: seq<Pair>, b: seq<Pair>)
    requires |a| == 0 || |b| == 0
    requires forall k :: Bag(a, k) == Bag(b, k)
    ensures a == b
  {
    if |b| > 0 {
      BagEmpty(a, b[0].key);
      BagEmpty(b, b[0].key);
    }
    if |a| > 0 {
      BagEmpty(a, a[0].key);
      BagEmpty(b, a[0].key);
    }
  }

  lemma HeadKey(a: seq<Pair>, b: seq<Pair>)
    requires Sorted(a) && Sorted(b) && |a| > 0 && |b| > 0
    requires forall k :: Bag(a, k) == Bag(b, k)
    ensures b[0].key <= a[0].key
  {
    BagEmpty(a, a[0].key);
    BagEmpty(b, a[0].key);
    assert Bag(a, a[0].key) == Bag(b, a[0].key);
  }

  lemma HeadsEqual(a: seq<Pair>, b: seq<Pair>)
    requires Sorted(a) && Sorted(b) && |a| > 0 && |b| > 0
    requires forall k :: Bag(a, k) == Bag(b, k) && |Bag(a, k)| <= 1
    ensures a[0] == b[0]
  {
    HeadKey(a, b);
    HeadKey(b, a);
    var k := a[0].key;
    BagHolds(a, k, a[0].value);
    BagHolds(b, k, b[0].value);
    assert a[0] in a && b[0] in b;
    var m := Bag(a, k);
    assert Bag(b, k) == m && a[0].value in m && b[0].value in m;
    assert |m - multiset{a[0].value}| == 0;
    assert m == multiset{a[0].value};
  }

  /** One edit at a time, in queue order. */
  function OneByOne(l: Leaves.Valid, es: seq<Edit>): Leaves.Valid
    decreases |es|
  {
    if |es| == 0 then l else OneByOne(Leaves.Edited(l, es[0]), es[1..])
  }

  lemma {:induction false} OneByOneSteps(l: Leaves.Valid, es: seq<Edit>, k: Key)
    ensures Steps(EditsOn(es, k), Leaves.LeafBag(l, k), Leaves.LeafBag(OneByOne(l, es), k))
    decreases |es|
  {
    if |es| > 0 {
      var m := Leaves.Edited(l, es[0]);
      Leaves.ApplyStep(l, es[0], k);
      OneByOneSteps(m, es[1..], k);
      if k == es[0].key {
        StepsOne(es[0], Leaves.LeafBag(l, k), Leaves.LeafBag(m, k));
      }
      StepsJoin(If(es[0], k), EditsOn(es[1..], k), Leaves.LeafBag(l, k), Leaves.LeafBag(m, k),
                Leaves.LeafBag(OneByOne(l, es), k));
    }
  }

  lemma {:induction false} OneByOneNoChain(l: Leaves.Valid, es: seq<Edit>)
    requires l.chain.End?
    ensures OneByOne(l, es).chain.End?
    decreases |es|
  {
    if |es| > 0 {
      OneByOneNoChain(Leaves.Edited(l, es[0]), es[1..]);
    }
  }

  /** While no key ever holds two values, the merge gives exactly the leaf that editing one at a time gives. */
  lemma MergeIsOneByOne(l: Leaves.Valid, es: seq<Edit>)
    requires l.chain.End? && SortedEdits(es)
    requires forall k :: SingleValued(EditsOn(es, k), Bag(l.pairs, k))
    ensures OneByOne(l, es) == Leaves.LeafData(Merge(l.pairs, es), Overflow.End)
  {
    var r, m := OneByOne(l, es), Merge(l.pairs, es);
    OneByOneNoChain(l, es);
    forall k
      ensures Bag(m, k) == Bag(r.pairs, k) && |Bag(m, k)| <= 1
    {
      MergeRefines(l.pairs, es, k);
      OneByOneSteps(l, es, k);
      assert Leaves.LeafBag(l, k) == Bag(l.pairs, k) && Leaves.LeafBag(r, k) == Bag(r.pairs, k);
      StepsDeterministic(EditsOn(es, k), Bag(l.pairs, k), Bag(m, k), Bag(r.pairs, k));
      StepsSingle(EditsOn(es, k), Bag(l.pairs, k), Bag(m, k));
    }
    MergeRefines(l.pairs, es, 0);
    SortedBagsEqual(m, r.pairs);
  }

  lemma {:induction false} StepsSingle(es: seq<Edit>, b: Values, c: Values)
    requires SingleValued(es, b) && Steps(es, b, c)
    ensures |c| <= 1
  {
    if |es| > 0 {
      var m :| Step(es[0], b, m) && Steps(es[1..], m, c);
      StepsSingle(es[1..], m, c);
    }
  }
}
